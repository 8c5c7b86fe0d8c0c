/**
 * The applicant-onboarding service in its two versions: the secure one masks
 * the SSN in its log, binds the values to a fixed parameterised statement,
 * reports a failure by a fixed error code and wipes the password buffer on
 * every path; the insecure one logs the SSN, builds SQL by concatenation and
 * passes the driver's message on.
 *
 * The database is outside the model: how a run of the driver ends is a
 * parameter (`DbOutcome`). Java's `null` is `None`. Java strings and char
 * arrays are sequences of UTF-16 code units where their numeric values
 * matter (the hash); elsewhere they are Dafny strings.
 */
module Onboarding {
  import opened Results
  import opened Int32
  import Text

  /** A Java `char`: one UTF-16 code unit. */
  type CodeUnit = c: int | 0 <= c < 0x1_0000

  // ---------------------------------------------------------------------------
  // SSN masking
  // ---------------------------------------------------------------------------

  const MASK_PREFIX: string := "***-**-"

  /** `maskSsn`: "***" for a null SSN or one shorter than four chars; else a
      fixed prefix and the last four chars. */
  function MaskSsn(ssn: Option<string>): (r: string)
    ensures ssn.None? || |ssn.value| < 4 <==> r == "***"
    ensures ssn.Some? && |ssn.value| >= 4 ==>
              |r| == 11 && r[..7] == MASK_PREFIX && r[7..] == ssn.value[|ssn.value| - 4..]
  {
    if ssn.None? || |ssn.value| < 4 then "***"
    else MASK_PREFIX + ssn.value[|ssn.value| - 4..]
  }

  /** The mask depends on nothing but the last four chars: two SSNs that
      share them are masked alike, and so are any two short ones. */
  lemma MaskRevealsOnlyLastFour(a: string, b: string)
    requires |a| >= 4 && |b| >= 4 && a[|a| - 4..] == b[|b| - 4..]
    ensures MaskSsn(Some(a)) == MaskSsn(Some(b))
  {
  }

  /** Two masks differ exactly when the last four chars differ. */
  lemma MaskDistinguishesLastFour(a: string, b: string)
    requires |a| >= 4 && |b| >= 4
    ensures MaskSsn(Some(a)) == MaskSsn(Some(b)) <==> a[|a| - 4..] == b[|b| - 4..]
  {
    var ma, mb := MaskSsn(Some(a)), MaskSsn(Some(b));
    if ma == mb {
      assert ma[7..] == mb[7..];
    }
  }

  // ---------------------------------------------------------------------------
  // The toy password hash
  // ---------------------------------------------------------------------------

  function Pow31(n: nat): (r: nat)
    ensures r >= 1
  {
    if n == 0 then 1 else 31 * Pow31(n - 1)
  }

  /** The polynomial `String.hashCode` is documented by, in exact arithmetic:
      s[0]*31^(n-1) + s[1]*31^(n-2) + ... + s[n-1]. */
  function PolySum(s: seq<CodeUnit>): int
  {
    if s == [] then 0 else s[0] * Pow31(|s| - 1) + PolySum(s[1..])
  }

  /** `String.hashCode`: the documented polynomial in `int` arithmetic. */
  function JavaHashCode(s: seq<CodeUnit>): int32
  {
    Wrap(PolySum(s))
  }

  /** One more unit at the end is one more Horner step. */
  lemma {:induction false} PolySumSnoc(s: seq<CodeUnit>, c: CodeUnit)
    ensures PolySum(s + [c]) == 31 * PolySum(s) + c
  {
    if s == [] {
      assert [c][1..] == [];
    } else {
      var t := s[1..];
      assert (s + [c])[0] == s[0] && (s + [c])[1..] == t + [c];
      PolySumSnoc(t, c);
      assert s[0] * Pow31(|t| + 1) == 31 * (s[0] * Pow31(|t|)) by {
        assert Pow31(|t| + 1) == 31 * Pow31(|t|);
      }
    }
  }

  /** `Integer.toHexString`: the unsigned value of the 32 bits in lowercase
      hexadecimal, without leading zeros. */
  function ToHexString(x: int32): (r: string)
    ensures 1 <= |r| && (forall k :: 0 <= k < |r| ==> Text.IsDigitIn(r[k], 16, false))
    ensures r[0] == '0' ==> r == "0"
  {
    Text.Numeral(Unsigned(x), 16, false)
  }

  /** The hex text reads back as the hashed value: distinct hashes give
      distinct texts, and zero alone gives "0". */
  lemma HexRoundTrip(x: int32)
    ensures Wrap(Text.ValueOf(ToHexString(x), 16)) == x
    ensures ToHexString(x) == "0" <==> x == 0
  {
    Text.NumeralRoundTrip(Unsigned(x), 16, false);
    if ToHexString(x) == "0" {
      assert Text.ValueOf("0", 16) == Text.ValueOf("", 16) * 16 + Text.DigitValue('0');
    }
  }

  lemma HexInjective(x: int32, y: int32)
    requires ToHexString(x) == ToHexString(y)
    ensures x == y
  {
    HexRoundTrip(x);
    HexRoundTrip(y);
  }

  /** The secure loop `for (char c : password) h = 31 * h + c;` from
      `h = 0`, in `int` arithmetic. */
  function SecureFold(s: seq<CodeUnit>): int32
  {
    if s == [] then 0 else Add(Mul(31, SecureFold(s[..|s| - 1])), s[|s| - 1])
  }

  /** The secure `hash(char[])`: the fold rendered by `Integer.toHexString`. */
  function SecureHash(s: seq<CodeUnit>): string
  {
    ToHexString(SecureFold(s))
  }

  /** The loop's 32-bit fold is `String.hashCode`'s documented polynomial
      reduced to an `int`. */
  lemma {:induction false} FoldIsHashCode(s: seq<CodeUnit>)
    ensures SecureFold(s) == JavaHashCode(s)
  {
    if s != [] {
      var init, c := s[..|s| - 1], s[|s| - 1];
      assert s == init + [c];
      FoldIsHashCode(init);
      PolySumSnoc(init, c);
      WrapMul(31, PolySum(init));
      WrapAdd(31 * PolySum(init), c);
    }
  }

  /** The secure `hash(char[])` over the password array. */
  method Hash(password: array<CodeUnit>) returns (hex: string)
    ensures hex == SecureHash(password[..])
  {
    var h: int32 := 0;
    for i := 0 to password.Length
      invariant h == SecureFold(password[..i])
    {
      var c := password[i];
      assert password[..i + 1][..i] == password[..i];
      h := Add(Mul(31, h), c);
    }
    assert password[..password.Length] == password[..];
    hex := ToHexString(h);
  }

  /** The empty password hashes to "0". */
  lemma EmptyPasswordHash()
    ensures SecureHash([]) == "0"
  {
    HexRoundTrip(0);
  }

  /** `Arrays.fill(password, '\0')`. */
  method Wipe(password: array<CodeUnit>)
    modifies password
    ensures forall k :: 0 <= k < password.Length ==> password[k] == 0
  {
    for i := 0 to password.Length
      invariant forall k :: 0 <= k < i ==> password[k] == 0
    {
      password[i] := 0;
    }
  }

  // ---------------------------------------------------------------------------
  // createApplicant
  // ---------------------------------------------------------------------------

  /** How the database handles a run: it succeeds, or fails with an
      exception (its `toString` text and message) while connecting and
      preparing, or while executing the statement. */
  datatype DbOutcome =
    | Succeeds
    | ConnectFails(text: string, message: string)
    | ExecuteFails(text: string, message: string)

  datatype Outcome = Created | Thrown(message: string) | NullPointer

  /** What a call leaves behind: its log lines, the SQL text handed to the
      driver ("" when none was), whether a connection was requested, the
      values bound to the statement's parameters, and how it ended. */
  datatype Run = Run(logs: seq<string>, sql: string, requested: bool,
                     bound: seq<Option<string>>, outcome: Outcome)

  const SECURE_SQL: string := "INSERT INTO applicants(full_name, ssn, pwd_hash) VALUES (?, ?, ?)"
  const ERROR_CODE: string := "ONB-1001"

  /** The secure `createApplicant`. The password buffer is no longer readable
      afterwards; the log carries only the masked SSN; the statement text is
      fixed; the three values are bound in order once a connection is there;
      every failure ends with the same message. */
  method CreateApplicantSecure(fullName: Option<string>, ssn: Option<string>,
                               password: array<CodeUnit>, db: DbOutcome) returns (run: Run)
    modifies password
    ensures forall k :: 0 <= k < password.Length ==> password[k] == 0
    ensures |run.logs| == 2 && run.logs[0] == "Creating applicant with SSN: " + MaskSsn(ssn)
    ensures run.requested
    ensures run.sql == if db.ConnectFails? then "" else SECURE_SQL
    ensures run.bound == if db.ConnectFails? then [] else [fullName, ssn, Some(SecureHash(old(password[..])))]
    ensures run.outcome == if db.Succeeds? then Created else Thrown("Operation failed (" + ERROR_CODE + ").")
    ensures run.logs[1] == if db.Succeeds? then "Applicant created"
                           else "CreateApplicant failed (" + ERROR_CODE + ")"
  {
    var masked := MaskSsn(ssn);
    var logs := ["Creating applicant with SSN: " + masked];
    var sql := "";
    var bound: seq<Option<string>> := [];
    var outcome: Outcome;
    if db.ConnectFails? {
      outcome := Thrown("Operation failed (" + ERROR_CODE + ").");
      logs := logs + ["CreateApplicant failed (" + ERROR_CODE + ")"];
    } else {
      sql := SECURE_SQL;
      var hashed := Hash(password);
      bound := [fullName, ssn, Some(hashed)];
      if db.Succeeds? {
        logs := logs + ["Applicant created"];
        outcome := Created;
      } else {
        logs := logs + ["CreateApplicant failed (" + ERROR_CODE + ")"];
        outcome := Thrown("Operation failed (" + ERROR_CODE + ").");
      }
    }
    Wipe(password);
    run := Run(logs, sql, true, bound, outcome);
  }

  /** Java string concatenation of a possibly-null reference. */
  function JavaText(s: Option<string>): string
  {
    if s.None? then "null" else s.value
  }

  const INSECURE_PREFIX: string := "INSERT INTO applicants(full_name, ssn, pwd_hash) VALUES ('"

  /** The insecure statement: the values pasted between quotes unescaped. */
  function InsecureSql(fullName: Option<string>, ssn: Option<string>, hash: string): string
  {
    INSECURE_PREFIX + JavaText(fullName) + "','" + JavaText(ssn) + "','" + hash + "')"
  }

  /** The insecure `hash(String)`: `Integer.toHexString(password.hashCode())`. */
  function InsecureHash(password: seq<CodeUnit>): string
  {
    ToHexString(JavaHashCode(password))
  }

  /** The insecure `createApplicant`: the SQL text (and so the hash) is made
      before a connection is requested, so a null password fails with a
      `NullPointerException` and no connection; any database failure is
      logged and rethrown with the driver's message. */
  function CreateApplicantInsecure(fullName: Option<string>, ssn: Option<string>,
                                   password: Option<seq<CodeUnit>>, db: DbOutcome): Run
  {
    var first := "Creating applicant for SSN=" + JavaText(ssn);
    if password.None? then Run([first], "", false, [], NullPointer)
    else
      var sql := InsecureSql(fullName, ssn, InsecureHash(password.value));
      match db
      case Succeeds => Run([first, "Applicant created"], sql, true, [], Created)
      case ConnectFails(text, message) =>
        Run([first, "Create failed: " + text], "", true, [], Thrown("Create failed: " + message))
      case ExecuteFails(text, message) =>
        Run([first, "Create failed: " + text], sql, true, [], Thrown("Create failed: " + message))
  }

  /** Both versions hash a password to the same text, so the insecure SQL
      embeds the very hash the secure statement binds. */
  lemma SameHashBothVersions(fullName: Option<string>, ssn: Option<string>, password: seq<CodeUnit>)
    ensures SecureHash(password) == InsecureHash(password)
    ensures CreateApplicantInsecure(fullName, ssn, Some(password), Succeeds).sql ==
              InsecureSql(fullName, ssn, SecureHash(password))
  {
    FoldIsHashCode(password);
  }

  /** The insecure log line shows the whole SSN. */
  lemma InsecureLogShowsSsn(fullName: Option<string>, ssn: string, password: Option<seq<CodeUnit>>, db: DbOutcome)
    ensures var line := CreateApplicantInsecure(fullName, Some(ssn), password, db).logs[0];
            |line| == 27 + |ssn| && line[27..] == ssn
  {
  }

  /** A failure's rethrown message is the driver's message behind a fixed
      prefix, and its log line the exception's text behind one. */
  lemma InsecureFailureLeaks(fullName: Option<string>, ssn: Option<string>, password: seq<CodeUnit>, db: DbOutcome)
    requires !db.Succeeds?
    ensures var run := CreateApplicantInsecure(fullName, ssn, Some(password), db);
            run.outcome == Thrown("Create failed: " + db.message) && run.logs[1] == "Create failed: " + db.text
  {
  }

  /** A null password fails before any connection is requested. */
  lemma InsecureNullPasswordNoConnection(fullName: Option<string>, ssn: Option<string>, db: DbOutcome)
    ensures var run := CreateApplicantInsecure(fullName, ssn, None, db);
            !run.requested && run.outcome == NullPointer && |run.logs| == 1
  {
  }

  /** The index of the first quote at or after `i`: where an SQL string
      literal opened before `i` ends. */
  function QuoteFrom(s: string, i: nat): (r: nat)
    requires i <= |s|
    ensures i <= r <= |s| && (r < |s| ==> s[r] == '\'')
    ensures forall k :: i <= k < r ==> s[k] != '\''
    decreases |s| - i
  {
    if i == |s| || s[i] == '\'' then i else QuoteFrom(s, i + 1)
  }

  /** A literal opened at `start` whose text is followed by a quote at
      `start + n` ends there exactly when that text has no quote. */
  lemma QuoteAfter(s: string, start: nat, n: nat)
    requires start + n < |s| && s[start + n] == '\''
    ensures s[start..QuoteFrom(s, start)] == s[start..start + n] <==> '\'' !in s[start..start + n]
  {
    var end := QuoteFrom(s, start);
    var body := s[start..start + n];
    if '\'' !in body {
      forall k | start <= k < start + n ensures s[k] != '\'' {
        assert s[k] == body[k - start];
      }
      assert end == start + n;
    } else {
      var j :| 0 <= j < n && body[j] == '\'';
      assert s[start + j] == '\'';
      assert end <= start + j;
      assert |s[start..end]| < n;
    }
  }

  /** In a text that pastes `name` after an opening quote and before a
      quote, the literal opened at `|prefix|` holds `name` exactly when
      `name` has no quote of its own. */
  lemma QuoteEndsLiteral(prefix: string, name: string, rest: string)
    requires rest != [] && rest[0] == '\''
    ensures var sql := prefix + name + rest;
            sql[|prefix|..QuoteFrom(sql, |prefix|)] == name <==> '\'' !in name
  {
    var sql := prefix + name + rest;
    assert sql[|prefix|..|prefix| + |name|] == name;
    assert sql[|prefix| + |name|] == rest[0];
    QuoteAfter(sql, |prefix|, |name|);
  }

  /** The first value the database reads from the insecure statement is
      the full name exactly when the name holds no quote; a quote in the
      name ends the literal early and the rest is read as SQL. */
  lemma InjectionThroughName(fullName: string, ssn: Option<string>, hash: string)
    ensures var sql := InsecureSql(Some(fullName), ssn, hash);
            var start := |INSECURE_PREFIX|;
            sql[start..QuoteFrom(sql, start)] == fullName <==> '\'' !in fullName
  {
    var rest := "','" + JavaText(ssn) + "','" + hash + "')";
    assert InsecureSql(Some(fullName), ssn, hash) == INSECURE_PREFIX + fullName + rest;
    QuoteEndsLiteral(INSECURE_PREFIX, fullName, rest);
  }
}
