/**
 * Strings and the small operations on them that several of the programs
 * share: reversal (`std::reverse`), Java's `String.trim`, splitting on
 * separator characters, joining with a separator, and positional numerals
 * (decimal `StringBuilder.append(int)`, `Integer.toHexString`, `std::hex`).
 */
module Text {

  // ---------------------------------------------------------------------------
  // Reversal
  // ---------------------------------------------------------------------------

  function Reverse<T>(s: seq<T>): (r: seq<T>)
    ensures |r| == |s|
  {
    if s == [] then [] else Reverse(s[1..]) + [s[0]]
  }

  /** Position k of the reversal holds position |s| - 1 - k of the input. */
  lemma {:induction false} ReverseAt<T>(s: seq<T>, k: nat)
    requires k < |s|
    ensures Reverse(s)[k] == s[|s| - 1 - k]
  {
    if k < |s| - 1 {
      ReverseAt(s[1..], k);
    }
  }

  /** A sequence is the reversal of `s` exactly when it mirrors `s` position by position. */
  lemma MirrorIsReverse<T>(s: seq<T>, t: seq<T>)
    requires |t| == |s|
    requires forall k :: 0 <= k < |s| ==> t[k] == s[|s| - 1 - k]
    ensures t == Reverse(s)
  {
    forall k | 0 <= k < |s| ensures t[k] == Reverse(s)[k] {
      ReverseAt(s, k);
    }
  }

  /** Reversal is its own inverse. */
  lemma ReverseReverse<T>(s: seq<T>)
    ensures Reverse(Reverse(s)) == s
  {
    var r := Reverse(s);
    forall k | 0 <= k < |s| ensures s[k] == r[|r| - 1 - k] {
      ReverseAt(s, |s| - 1 - k);
    }
    MirrorIsReverse(r, s);
  }

  /** Reversal swaps the order of a concatenation. */
  lemma ReverseAppend<T>(a: seq<T>, b: seq<T>)
    ensures Reverse(a + b) == Reverse(b) + Reverse(a)
  {
    var s, t := a + b, Reverse(b) + Reverse(a);
    forall k | 0 <= k < |s| ensures t[k] == s[|s| - 1 - k] {
      if k < |b| {
        ReverseAt(b, k);
      } else {
        ReverseAt(a, k - |b|);
      }
    }
    MirrorIsReverse(s, t);
  }

  /** `std::reverse(first, last)` over a whole buffer. */
  method ReverseInPlace<T>(a: array<T>)
    modifies a
    ensures a[..] == Reverse(old(a[..]))
  {
    var n := a.Length;
    var i := 0;
    while i < n / 2
      invariant 0 <= i <= n / 2
      invariant forall k :: 0 <= k < i ==> a[k] == old(a[n - 1 - k]) && a[n - 1 - k] == old(a[k])
      invariant forall k :: i <= k < n - i ==> a[k] == old(a[k])
    {
      a[i], a[n - 1 - i] := a[n - 1 - i], a[i];
      i := i + 1;
    }
    MirrorIsReverse(old(a[..]), a[..]);
  }

  // ---------------------------------------------------------------------------
  // Java String.trim: strips every leading and trailing char whose code is at
  // most U+0020.
  // ---------------------------------------------------------------------------

  predicate IsTrimmable(c: char) { c <= ' ' }

  function TrimStart(s: string): string
  {
    if s != [] && IsTrimmable(s[0]) then TrimStart(s[1..]) else s
  }

  function TrimEnd(s: string): string
  {
    if s != [] && IsTrimmable(s[|s| - 1]) then TrimEnd(s[..|s| - 1]) else s
  }

  function Trim(s: string): string
  {
    TrimEnd(TrimStart(s))
  }

  /** Trimming the start drops exactly the leading trimmable chars. */
  lemma {:induction false} TrimStartShape(s: string)
    ensures |TrimStart(s)| <= |s| && TrimStart(s) == s[|s| - |TrimStart(s)|..]
    ensures TrimStart(s) == [] || !IsTrimmable(TrimStart(s)[0])
    ensures forall k :: 0 <= k < |s| - |TrimStart(s)| ==> IsTrimmable(s[k])
  {
    if s != [] && IsTrimmable(s[0]) {
      TrimStartShape(s[1..]);
    }
  }

  /** Trimming the end drops exactly the trailing trimmable chars. */
  lemma {:induction false} TrimEndShape(s: string)
    ensures |TrimEnd(s)| <= |s| && TrimEnd(s) == s[..|TrimEnd(s)|]
    ensures TrimEnd(s) == [] || !IsTrimmable(TrimEnd(s)[|TrimEnd(s)| - 1])
    ensures forall k :: |TrimEnd(s)| <= k < |s| ==> IsTrimmable(s[k])
  {
    if s != [] && IsTrimmable(s[|s| - 1]) {
      TrimEndShape(s[..|s| - 1]);
    }
  }

  /** `s.trim()` is the part of `s` between its leading and trailing
      trimmable chars: a slice that starts and ends with a char above U+0020
      (or is empty), with only trimmable chars cut away. */
  lemma TrimShape(s: string)
    ensures var i, t := |s| - |TrimStart(s)|, Trim(s);
            0 <= i && i + |t| <= |s| && t == s[i..i + |t|] &&
            (forall k :: 0 <= k < i ==> IsTrimmable(s[k])) &&
            (forall k :: i + |t| <= k < |s| ==> IsTrimmable(s[k]))
    ensures Trim(s) == [] || (!IsTrimmable(Trim(s)[0]) && !IsTrimmable(Trim(s)[|Trim(s)| - 1]))
  {
    var u := TrimStart(s);
    TrimStartShape(s);
    var i := |s| - |u|;
    var t := TrimEnd(u);
    TrimEndShape(u);
    assert u == s[i..];
    assert t == u[..|t|];
    SliceOfSuffix(s, i, |t|);
    forall k | i + |t| <= k < |s| ensures IsTrimmable(s[k]) {
      assert s[k] == u[k - i];
    }
    if t != [] {
      assert t[0] == u[0];
    }
  }

  lemma SliceOfSuffix(s: string, i: nat, n: nat)
    requires i + n <= |s|
    ensures s[i..][..n] == s[i..i + n]
  {
  }

  /** `s.trim().isEmpty()` holds exactly when every char of `s` is at most U+0020. */
  lemma TrimEmptyIff(s: string)
    ensures Trim(s) == [] <==> forall k :: 0 <= k < |s| ==> IsTrimmable(s[k])
  {
    var t := TrimStart(s);
    TrimStartShape(s);
    TrimEndShape(t);
    if Trim(s) != [] && t != [] {
      assert !IsTrimmable(t[0]);
      assert s[|s| - |t|] == t[0];
    }
  }

  /** Trimming twice is trimming once. */
  lemma TrimIdempotent(s: string)
    ensures Trim(Trim(s)) == Trim(s)
  {
    var t := Trim(s);
    TrimShape(s);
    if t != [] {
      assert TrimStart(t) == t;
      assert TrimEnd(t) == t;
    }
  }

  // ---------------------------------------------------------------------------
  // Splitting at separator chars (every separator ends a piece, so two
  // separators in a row give an empty piece) and joining.
  // ---------------------------------------------------------------------------

  function Split(s: string, seps: set<char>): (r: seq<string>)
    ensures |r| >= 1
  {
    if s == [] then [""]
    else
      var rest := Split(s[1..], seps);
      if s[0] in seps then [""] + rest else [[s[0]] + rest[0]] + rest[1..]
  }

  predicate NoneIn(s: string, seps: set<char>)
  {
    forall k :: 0 <= k < |s| ==> s[k] !in seps
  }

  /** Text free of separators merges into the first piece of what follows it. */
  lemma {:induction false} SplitPrefix(t: string, rest: string, seps: set<char>)
    requires NoneIn(t, seps)
    ensures Split(t + rest, seps) == [t + Split(rest, seps)[0]] + Split(rest, seps)[1..]
  {
    if t != [] {
      var tr, sr := Split(t[1..] + rest, seps), Split(rest, seps);
      assert (t + rest)[1..] == t[1..] + rest;
      assert (t + rest)[0] == t[0] && t[0] !in seps;
      assert Split(t + rest, seps) == [[t[0]] + tr[0]] + tr[1..];
      SplitPrefix(t[1..], rest, seps);
      assert tr[0] == t[1..] + sr[0] && tr[1..] == sr[1..];
      assert [t[0]] + (t[1..] + sr[0]) == t + sr[0];
    } else {
      var sr := Split(rest, seps);
      assert t + rest == rest && t + sr[0] == sr[0];
      assert [sr[0]] + sr[1..] == sr;
    }
  }

  function Join(ts: seq<string>, sep: char): (r: string)
  {
    if ts == [] then ""
    else if |ts| == 1 then ts[0]
    else ts[0] + [sep] + Join(ts[1..], sep)
  }

  /** Splitting a join at its separator gives back the pieces, provided none contains it. */
  lemma {:induction false} SplitJoin(ts: seq<string>, sep: char)
    requires ts != []
    requires forall i :: 0 <= i < |ts| ==> NoneIn(ts[i], {sep})
    ensures Split(Join(ts, sep), {sep}) == ts
  {
    if |ts| == 1 {
      SplitPrefix(ts[0], "", {sep});
      assert ts[0] + "" == ts[0];
    } else {
      var tail := Join(ts[1..], sep);
      SplitJoin(ts[1..], sep);
      SplitPrefix(ts[0], [sep] + tail, {sep});
      assert ts[0] + [sep] + tail == ts[0] + ([sep] + tail);
      assert ([sep] + tail)[1..] == tail;
      assert ts[0] + "" == ts[0];
    }
  }


  /** Joining the pieces of a split at its one separator gives the text back. */
  lemma {:induction false} JoinSplit(s: string, sep: char)
    ensures Join(Split(s, {sep}), sep) == s
  {
    if s != [] {
      var rest := Split(s[1..], {sep});
      JoinSplit(s[1..], sep);
      if s[0] == sep {
        assert Split(s, {sep}) == [""] + rest;
        assert ([""] + rest)[1..] == rest;
        assert Join([""] + rest, sep) == "" + [sep] + Join(rest, sep);
        assert s == [sep] + s[1..];
      } else if |rest| == 1 {
        assert Split(s, {sep}) == [[s[0]] + rest[0]];
        assert s == [s[0]] + s[1..];
      } else {
        var first := [s[0]] + rest[0];
        assert Split(s, {sep}) == [first] + rest[1..];
        assert ([first] + rest[1..])[1..] == rest[1..];
        assert Join(rest, sep) == rest[0] + [sep] + Join(rest[1..], sep);
        assert s == [s[0]] + s[1..];
      }
    }
  }

  /** Joining one more piece appends the separator and the piece. */
  lemma {:induction false} JoinSnoc(ts: seq<string>, t: string, sep: char)
    requires ts != []
    ensures Join(ts + [t], sep) == Join(ts, sep) + [sep] + t
  {
    if |ts| == 1 {
      assert ts + [t] == [ts[0], t];
      assert [ts[0], t][1..] == [t];
    } else {
      assert (ts + [t])[0] == ts[0] && (ts + [t])[1..] == ts[1..] + [t];
      JoinSnoc(ts[1..], t, sep);
    }
  }

  /** Every piece followed by the separator: what a writer emits when it
      ends each piece with one. */
  function Terminated(ts: seq<string>, sep: char): string
  {
    if ts == [] then "" else Terminated(ts[..|ts| - 1], sep) + ts[|ts| - 1] + [sep]
  }

  /** Terminated pieces are the joined pieces and one more separator. */
  lemma {:induction false} TerminatedIsJoin(ts: seq<string>, sep: char)
    ensures Terminated(ts, sep) == if ts == [] then "" else Join(ts, sep) + [sep]
  {
    if |ts| == 1 {
      assert ts[..0] == [];
    } else if |ts| > 1 {
      var init := ts[..|ts| - 1];
      TerminatedIsJoin(init, sep);
      JoinSnoc(init, ts[|ts| - 1], sep);
      assert init + [ts[|ts| - 1]] == ts;
    }
  }

  /** Terminated pieces and one unterminated last piece are a join. */
  lemma TerminatedThenLast(ts: seq<string>, t: string, sep: char)
    ensures Terminated(ts, sep) + t == Join(ts + [t], sep)
  {
    TerminatedIsJoin(ts, sep);
    if ts == [] {
      assert ts + [t] == [t];
    } else {
      JoinSnoc(ts, t, sep);
    }
  }

  /** The pieces after one more char at the front: a separator opens a new
      empty piece, any other char extends the first piece. */
  function ConsPiece(c: char, p: seq<string>, seps: set<char>): seq<string>
    requires |p| >= 1
  {
    if c in seps then [""] + p else [[c] + p[0]] + p[1..]
  }

  /** The pieces after one more char at the end: a separator opens a new
      empty piece, any other char extends the last piece. */
  function SnocPiece(p: seq<string>, c: char, seps: set<char>): seq<string>
    requires |p| >= 1
  {
    if c in seps then p + [""] else p[..|p| - 1] + [p[|p| - 1] + [c]]
  }

  /** Adding at the front and adding at the end commute. */
  lemma ConsSnocCommute(a: char, p: seq<string>, c: char, seps: set<char>)
    requires |p| >= 1
    ensures |SnocPiece(p, c, seps)| >= 1 && |ConsPiece(a, p, seps)| >= 1
    ensures ConsPiece(a, SnocPiece(p, c, seps), seps) == SnocPiece(ConsPiece(a, p, seps), c, seps)
  {
    if a in seps && c !in seps {
      CommuteSepFirst(p, c, seps);
    } else if a !in seps && c in seps {
      CommuteSepLast(a, p, seps);
    } else if a !in seps && c !in seps {
      CommuteNoSep(a, p, c, seps);
    }
  }

  lemma CommuteSepFirst(p: seq<string>, c: char, seps: set<char>)
    requires |p| >= 1 && c !in seps
    ensures [""] + (p[..|p| - 1] + [p[|p| - 1] + [c]]) ==
            ([""] + p)[..|p|] + [([""] + p)[|p|] + [c]]
  {
    assert ([""] + p)[..|p|] == [""] + p[..|p| - 1];
  }

  lemma CommuteSepLast(a: char, p: seq<string>, seps: set<char>)
    requires |p| >= 1
    ensures [[a] + (p + [""])[0]] + (p + [""])[1..] == ([[a] + p[0]] + p[1..]) + [""]
  {
    assert (p + [""])[0] == p[0] && (p + [""])[1..] == p[1..] + [""];
  }

  lemma CommuteNoSep(a: char, p: seq<string>, c: char, seps: set<char>)
    requires |p| >= 1 && a !in seps && c !in seps
    ensures ConsPiece(a, SnocPiece(p, c, seps), seps) == SnocPiece(ConsPiece(a, p, seps), c, seps)
  {
    var r := p[..|p| - 1] + [p[|p| - 1] + [c]];
    var q := [[a] + p[0]] + p[1..];
    if |p| == 1 {
      assert r == [p[0] + [c]];
      assert [a] + (p[0] + [c]) == ([a] + p[0]) + [c];
    } else {
      assert r[0] == p[0] && r[1..] == p[1..|p| - 1] + [p[|p| - 1] + [c]];
      assert q[..|q| - 1] == [[a] + p[0]] + p[1..|p| - 1];
      assert q[|q| - 1] == p[|p| - 1];
    }
  }

  /** Splitting with one more char at the end. */
  lemma {:induction false} SplitSnoc(x: string, c: char, seps: set<char>)
    ensures Split(x + [c], seps) == SnocPiece(Split(x, seps), c, seps)
  {
    if x == [] {
      assert x + [c] == [c] && [c][1..] == [];
      assert Split([c], seps) == ConsPiece(c, [""], seps);
      assert [c] + "" == "" + [c];
    } else {
      var xs := x[1..];
      assert (x + [c])[0] == x[0] && (x + [c])[1..] == xs + [c];
      SplitSnoc(xs, c, seps);
      assert Split(x + [c], seps) == ConsPiece(x[0], Split(xs + [c], seps), seps);
      assert Split(x, seps) == ConsPiece(x[0], Split(xs, seps), seps);
      ConsSnocCommute(x[0], Split(xs, seps), c, seps);
    }
  }

  // ---------------------------------------------------------------------------
  // Positional numerals in bases 2 to 16, most significant digit first,
  // without leading zeros ("0" for zero).
  // ---------------------------------------------------------------------------

  function DigitChar(d: nat, upper: bool): (c: char)
    requires d < 16
    ensures DigitValue(c) == d
    ensures '0' <= c <= '9' || (if upper then 'A' <= c <= 'F' else 'a' <= c <= 'f')
  {
    if d < 10 then ('0' as int + d) as char
    else if upper then ('A' as int + d - 10) as char
    else ('a' as int + d - 10) as char
  }

  /** The value of a digit char in either case; 16 for a char that is no digit. */
  function DigitValue(c: char): nat
  {
    if '0' <= c <= '9' then c as int - '0' as int
    else if 'a' <= c <= 'f' then c as int - 'a' as int + 10
    else if 'A' <= c <= 'F' then c as int - 'A' as int + 10
    else 16
  }

  predicate IsDigitIn(c: char, base: nat, upper: bool)
  {
    DigitValue(c) < base && ('0' <= c <= '9' || (if upper then 'A' <= c <= 'F' else 'a' <= c <= 'f'))
  }

  function Numeral(n: nat, base: nat, upper: bool): (r: string)
    requires 2 <= base <= 16
    ensures 1 <= |r|
    ensures r[0] == '0' ==> n == 0 && r == "0"
    ensures forall k :: 0 <= k < |r| ==> IsDigitIn(r[k], base, upper)
    decreases n
  {
    if n < base then [DigitChar(n, upper)]
    else
      var q, d := n / base, n % base;
      assert 1 <= q < n && d < base by { DivModBounds(n, base); }
      Numeral(q, base, upper) + [DigitChar(d, upper)]
  }

  lemma DivModBounds(n: nat, base: nat)
    requires 2 <= base <= n
    ensures 1 <= n / base < n && n % base < base && n == n / base * base + n % base
  {
  }

  /** The number a string of digits denotes in `base`. */
  function ValueOf(s: string, base: nat): nat
  {
    if s == [] then 0 else ValueOf(s[..|s| - 1], base) * base + DigitValue(s[|s| - 1])
  }

  /** Reading a numeral back gives the number it was written from. */
  lemma {:induction false} NumeralRoundTrip(n: nat, base: nat, upper: bool)
    requires 2 <= base <= 16
    ensures ValueOf(Numeral(n, base, upper), base) == n
    decreases n
  {
    var r := Numeral(n, base, upper);
    if n >= base {
      var q, d := n / base, n % base;
      DivModBounds(n, base);
      NumeralRoundTrip(q, base, upper);
      assert r == Numeral(q, base, upper) + [DigitChar(d, upper)];
      assert r[..|r| - 1] == Numeral(q, base, upper);
      assert DigitValue(r[|r| - 1]) == d;
      assert ValueOf(r, base) == q * base + d;
    }
  }

  /** Decimal rendering of an int, with a leading '-' for negatives. */
  function Decimal(n: int): string
  {
    if n < 0 then "-" + Numeral(-n, 10, false) else Numeral(n, 10, false)
  }

  /** Decimal numerals contain no whitespace or '-' past their sign, so they
      can serve as separator-free tokens. */
  lemma DecimalDigitsOnly(n: nat)
    ensures forall k :: 0 <= k < |Decimal(n)| ==> '0' <= Decimal(n)[k] <= '9'
  {
  }
}
