/**
 * The formatting state of an output stream (`std::cout`) and the iostream
 * demonstrations that change it: a stream-state corruption demo that leaves
 * the base switched until it switches it back, a precision demo, an age
 * prompt, the secure demo that saves and restores the state, and the menu
 * that runs them.
 *
 * The stream's state is its format flags (base, uppercase, floating-point
 * notation), its precision and field width, and the text written so far.
 * Floating-point values are not rendered: writing a `double` only depends
 * on and leaves the state as it is, and adds no text here.
 *
 * A char of the text read or written stands for one byte of the program's
 * `std::string`: the secure demo's 50-char limit is `length()` and
 * `substr(0, 50)`, which count bytes.
 */
module StreamFormat {
  import opened Int32
  import Text

  datatype Base = Dec | Hex | Oct
  datatype FloatField = General | Fixed | Scientific

  /** The part of `std::ios_base::fmtflags` these programs touch. */
  datatype Flags = Flags(base: Base, uppercase: bool, floatfield: FloatField)

  const DEFAULT_FLAGS: Flags := Flags(Dec, false, General)
  const DEFAULT_PRECISION: int := 6

  /** Spaces before `s` up to width `w` (right adjustment, space fill). */
  function Pad(s: string, w: int): string
  {
    if w > |s| then seq(w - |s|, _ => ' ') + s else s
  }

  /** The padded text is `s` after as many spaces as make up the width. */
  lemma PadShape(s: string, w: int)
    ensures var r := Pad(s, w);
            |r| == (if w > |s| then w else |s|) &&
            r[|r| - |s|..] == s && forall k :: 0 <= k < |r| - |s| ==> r[k] == ' '
  {
  }

  /** How `operator<<(int)` renders `n`: decimal with a sign, or the 32 bits
      unsigned in hex (upper or lower case) or octal. */
  function FormatInt(n: int32, f: Flags): string
  {
    match f.base
    case Dec => Text.Decimal(n)
    case Hex => Text.Numeral(Unsigned(n), 16, f.uppercase)
    case Oct => Text.Numeral(Unsigned(n), 8, false)
  }

  class OStream {
    var flags: Flags
    var precision: int
    var width: int
    var text: string

    /** A stream as the program starts with it. */
    constructor()
      ensures flags == DEFAULT_FLAGS && precision == DEFAULT_PRECISION && width == 0 && text == ""
    {
      flags := DEFAULT_FLAGS;
      precision := DEFAULT_PRECISION;
      width := 0;
      text := "";
    }

    /** `flags(f)`. */
    method SetFlags(f: Flags)
      modifies this
      ensures flags == f && precision == old(precision) && width == old(width) && text == old(text)
    {
      flags := f;
    }

    /** `std::hex`, `std::dec`. */
    method SetBase(b: Base)
      modifies this
      ensures flags == old(flags).(base := b)
      ensures precision == old(precision) && width == old(width) && text == old(text)
    {
      flags := flags.(base := b);
    }

    /** `std::uppercase`, `std::nouppercase`. */
    method SetUppercase(u: bool)
      modifies this
      ensures flags == old(flags).(uppercase := u)
      ensures precision == old(precision) && width == old(width) && text == old(text)
    {
      flags := flags.(uppercase := u);
    }

    /** `std::fixed`. */
    method SetFixed()
      modifies this
      ensures flags == old(flags).(floatfield := Fixed)
      ensures precision == old(precision) && width == old(width) && text == old(text)
    {
      flags := flags.(floatfield := Fixed);
    }

    /** `precision(p)`, `std::setprecision(p)`. */
    method SetPrecision(p: int)
      modifies this
      ensures precision == p && flags == old(flags) && width == old(width) && text == old(text)
    {
      precision := p;
    }

    /** `std::setw(w)`: applies to the next item written only. */
    method SetWidth(w: int)
      modifies this
      ensures width == w && flags == old(flags) && precision == old(precision) && text == old(text)
    {
      width := w;
    }

    /** `<< s` for a string: padded to the width, which then resets. */
    method PutText(s: string)
      modifies this
      ensures text == old(text) + Pad(s, old(width)) && width == 0
      ensures flags == old(flags) && precision == old(precision)
    {
      text := text + Pad(s, width);
      width := 0;
    }

    /** `<< x` for a double: it uses up the field width; its digits, which
        depend on floating point, are not rendered. */
    method PutDouble()
      modifies this
      ensures text == old(text) && width == 0
      ensures flags == old(flags) && precision == old(precision)
    {
      width := 0;
    }

    /** `<< n` for an int, rendered by the current flags. */
    method PutInt(n: int32)
      modifies this
      ensures text == old(text) + Pad(FormatInt(n, old(flags)), old(width)) && width == 0
      ensures flags == old(flags) && precision == old(precision)
    {
      text := text + Pad(FormatInt(n, flags), width);
      width := 0;
    }
  }

  /** 255 in uppercase hex, and 12345 too: what the corrupted stream shows. */
  lemma HexExamples()
    ensures FormatInt(255, Flags(Hex, true, General)) == "FF"
    ensures FormatInt(12345, Flags(Hex, true, General)) == "3039"
  {
    assert Text.Numeral(255, 16, true) == Text.Numeral(15, 16, true) + [Text.DigitChar(15, true)];
    assert Text.Numeral(12345, 16, true) == Text.Numeral(771, 16, true) + [Text.DigitChar(9, true)];
    assert Text.Numeral(771, 16, true) == Text.Numeral(48, 16, true) + [Text.DigitChar(3, true)];
    assert Text.Numeral(48, 16, true) == Text.Numeral(3, 16, true) + [Text.DigitChar(0, true)];
  }

  const CORRUPTION_HEADER := "\n=== VULNERABILITY 2: Stream State Corruption ===\n"
  const NORMAL_DECIMAL := "Normal decimal output: "
  const PROCESSING_HEX := "Processing hex value: "
  const SHOULD_BE_DECIMAL := "This should be decimal but shows as: "
  const FIXED_DECIMAL := "Fixed decimal output: "

  /** Uppercase hex, as `std::hex << std::uppercase` leaves the flags. */
  function HexUpper(f: Flags): Flags
  {
    f.(base := Hex, uppercase := true)
  }

  /** `demonstrate_stream_state_corruption`: switches to uppercase hex, so
      12345 then shows as hex, and finally switches back to decimal
      lowercase, whatever the base and case were on entry. */
  method StreamStateCorruption(out: OStream)
    modifies out
    ensures out.flags == old(out.flags).(base := Dec, uppercase := false)
    ensures out.precision == old(out.precision) && out.width == 0
    ensures out.text == old(out.text) + Pad(CORRUPTION_HEADER, old(out.width)) +
                        NORMAL_DECIMAL + FormatInt(12345, old(out.flags)) + "\n" +
                        PROCESSING_HEX + FormatInt(255, HexUpper(old(out.flags))) + "\n" +
                        SHOULD_BE_DECIMAL + FormatInt(12345, HexUpper(old(out.flags))) + "\n" +
                        FIXED_DECIMAL + Text.Decimal(12345) + "\n"
  {
    out.PutText(CORRUPTION_HEADER);
    out.PutText(NORMAL_DECIMAL);
    out.PutInt(12345);
    out.PutText("\n");
    out.SetBase(Hex);
    out.SetUppercase(true);
    out.PutText(PROCESSING_HEX);
    out.PutInt(255);
    out.PutText("\n");
    out.PutText(SHOULD_BE_DECIMAL);
    out.PutInt(12345);
    out.PutText("\n");
    out.SetBase(Dec);
    out.SetUppercase(false);
    out.PutText(FIXED_DECIMAL);
    out.PutInt(12345);
    out.PutText("\n");
  }

  const PRECISION_HEADER := "\n=== VULNERABILITY 3: Precision/Width Issues ===\n"
  const NORMAL_PRECISION := "Normal precision: "
  const HIGH_PRECISION := "High precision (may reveal internal data): "
  const WIDTH_TEST := "Testing large field width...\n"
  const WIDTH_NOTE := "Large width can cause memory/performance issues\n"

  /** `demonstrate_precision_vulnerabilities`: precision 50 for one value,
      then 6, whatever it was on entry. The two doubles it writes are not
      rendered. */
  method PrecisionVulnerabilities(out: OStream)
    modifies out
    ensures out.precision == 6 && out.flags == old(out.flags) && out.width == 0
    ensures out.text == old(out.text) + Pad(PRECISION_HEADER, old(out.width)) +
                        NORMAL_PRECISION + "\n" + HIGH_PRECISION + "\n" + WIDTH_TEST + WIDTH_NOTE
  {
    out.PutText(PRECISION_HEADER);
    out.PutText(NORMAL_PRECISION);
    out.PutDouble();
    out.PutText("\n");
    out.PutText(HIGH_PRECISION);
    out.SetPrecision(50);
    out.PutDouble();
    out.PutText("\n");
    out.SetPrecision(6);
    out.PutText(WIDTH_TEST);
    out.PutText(WIDTH_NOTE);
  }

  /** What `std::cin >> n` meets: digits denoting `v` (possibly outside the
      range of `int`), text that is no number, or the end of input. */
  datatype Token = Number(v: int) | NotNumber | EndOfInput

  /** The age prompt's verdict. */
  datatype AgeVerdict = Accepted(age: int32) | NegativeAge(age: int32) | UnrealisticAge(age: int32) | NotANumber

  /** `demonstrate_input_validation_issues`: a value outside the range of
      `int` fails extraction like text does. */
  function ClassifyAge(t: Token): (r: AgeVerdict)
    ensures r.NotANumber? <==> !(t.Number? && MIN <= t.v <= MAX)
    ensures r.NegativeAge? <==> t.Number? && MIN <= t.v < 0
    ensures r.UnrealisticAge? <==> t.Number? && 200 < t.v <= MAX
    ensures r.Accepted? <==> t.Number? && 0 <= t.v <= 200
    ensures !r.NotANumber? ==> r.age == t.v
  {
    if t.Number? && MIN <= t.v <= MAX then
      if t.v < 0 then NegativeAge(t.v)
      else if t.v > 200 then UnrealisticAge(t.v)
      else Accepted(t.v)
    else NotANumber
  }

  const AGE_HEADER := "\n=== VULNERABILITY 4: Input Validation ===\n"
  const AGE_PROMPT := "Enter your age: "
  const AGE_ENTERED := "Age entered: "
  const NOT_A_NUMBER := "\U{1F6A8} Invalid input - not a number!\n"
  const NEGATIVE_AGE := "\U{1F6A8} Negative age detected!\n"
  const UNREALISTIC_AGE := "\U{1F6A8} Unrealistic age detected!\n"

  method InputValidation(out: OStream, t: Token) returns (verdict: AgeVerdict)
    modifies out
    ensures verdict == ClassifyAge(t)
    ensures out.flags == old(out.flags) && out.precision == old(out.precision) && out.width == 0
    ensures out.text == old(out.text) + Pad(AGE_HEADER, old(out.width)) +
                        AGE_PROMPT + AgeLines(verdict, old(out.flags))
  {
    out.PutText(AGE_HEADER);
    out.PutText(AGE_PROMPT);
    verdict := ClassifyAge(t);
    ReportAge(out, verdict);
  }

  /** The lines written once the age is read. */
  method ReportAge(out: OStream, verdict: AgeVerdict)
    requires out.width == 0
    modifies out
    ensures out.flags == old(out.flags) && out.precision == old(out.precision) && out.width == 0
    ensures out.text == old(out.text) + AgeLines(verdict, old(out.flags))
  {
    if verdict.NotANumber? {
      out.PutText(NOT_A_NUMBER);
    } else {
      ghost var before, age := out.text, FormatInt(verdict.age, old(out.flags));
      out.PutText(AGE_ENTERED);
      out.PutInt(verdict.age);
      out.PutText("\n");
      if verdict.NegativeAge? {
        out.PutText(NEGATIVE_AGE);
      } else if verdict.UnrealisticAge? {
        out.PutText(UNREALISTIC_AGE);
      }
      SeqAssoc(before, AGE_ENTERED, age);
      SeqAssoc(before, AGE_ENTERED + age, "\n");
      SeqAssoc(before, AGE_ENTERED + age + "\n", AgeWarning(verdict));
    }
  }

  lemma SeqAssoc<T>(a: seq<T>, b: seq<T>, c: seq<T>)
    ensures a + (b + c) == a + b + c
  {
  }

  /** The lines the age prompt writes for its verdict. */
  function AgeLines(v: AgeVerdict, f: Flags): string
  {
    if v.NotANumber? then NOT_A_NUMBER
    else AGE_ENTERED + FormatInt(v.age, f) + "\n" + AgeWarning(v)
  }

  function AgeWarning(v: AgeVerdict): string
  {
    if v.NegativeAge? then NEGATIVE_AGE
    else if v.UnrealisticAge? then UNREALISTIC_AGE
    else ""
  }

  const SECURE_HEADER := "\n=== SECURE ALTERNATIVES ===\n"
  const TEXT_PROMPT := "Enter text (secure): "
  const TRUNCATING := "\U{26A0}\U{FE0F} Input too long, truncating...\n"
  const SAFELY_PROCESSED := "Safely processed: "
  const TEMPORARY_HEX := "Temporary hex output: "
  const STATE_RESTORED := "Stream state restored: "

  const MAX_TEXT_LENGTH: nat := 50

  /** `demonstrate_secure_practices`: the line is cut to 50 chars; the flags
      and precision saved before the hex output are put back, so the state
      afterwards is the state on entry. */
  method SecurePractices(out: OStream, line: string) returns (safeInput: string)
    modifies out
    ensures |safeInput| == (if |line| > MAX_TEXT_LENGTH then MAX_TEXT_LENGTH else |line|)
    ensures safeInput == line[..|safeInput|]
    ensures out.flags == old(out.flags) && out.precision == old(out.precision) && out.width == 0
    ensures out.text == old(out.text) + Pad(SECURE_HEADER, old(out.width)) +
                        TEXT_PROMPT +
                        (if |line| > MAX_TEXT_LENGTH then TRUNCATING else "") +
                        SAFELY_PROCESSED + safeInput + "\n" +
                        TEMPORARY_HEX + FormatInt(255, HexUpper(old(out.flags))) + "\n" +
                        STATE_RESTORED + FormatInt(255, old(out.flags)) + "\n"
  {
    out.PutText(SECURE_HEADER);
    out.PutText(TEXT_PROMPT);
    safeInput := EchoTruncated(out, line);
    HexThenRestore(out);
  }

  /** The length check and the echo of the kept text. */
  method EchoTruncated(out: OStream, line: string) returns (safeInput: string)
    requires out.width == 0
    modifies out
    ensures safeInput == if |line| > MAX_TEXT_LENGTH then line[..MAX_TEXT_LENGTH] else line
    ensures out.flags == old(out.flags) && out.precision == old(out.precision) && out.width == 0
    ensures out.text == old(out.text) +
                        (if |line| > MAX_TEXT_LENGTH then TRUNCATING else "") +
                        SAFELY_PROCESSED + safeInput + "\n"
  {
    safeInput := line;
    if |safeInput| > MAX_TEXT_LENGTH {
      out.PutText(TRUNCATING);
      safeInput := safeInput[..MAX_TEXT_LENGTH];
    }
    out.PutText(SAFELY_PROCESSED);
    out.PutText(safeInput);
    out.PutText("\n");
  }

  /** Save the flags and precision, write 255 in uppercase hex, restore
      both and write 255 again. */
  method HexThenRestore(out: OStream)
    requires out.width == 0
    modifies out
    ensures out.flags == old(out.flags) && out.precision == old(out.precision) && out.width == 0
    ensures out.text == old(out.text) +
                        TEMPORARY_HEX + FormatInt(255, HexUpper(old(out.flags))) + "\n" +
                        STATE_RESTORED + FormatInt(255, old(out.flags)) + "\n"
  {
    var savedFlags := out.flags;
    var savedPrecision := out.precision;
    out.SetBase(Hex);
    out.SetUppercase(true);
    out.PutText(TEMPORARY_HEX);
    out.PutInt(255);
    out.PutText("\n");
    out.SetFlags(savedFlags);
    out.SetPrecision(savedPrecision);
    out.PutText(STATE_RESTORED);
    out.PutInt(255);
    out.PutText("\n");
  }

  /** The stream writes ints in lowercase decimal. */
  predicate IsDecimal(f: Flags)
  {
    f.base == Dec && !f.uppercase
  }

  /** The `switch` of the menu for choices 2 to 5. Whatever the user
      enters, a stream that wrote ints in lowercase decimal before a
      demonstration still does after it; only the precision demonstration
      leaves a precision behind, which is 6. */
  method Demonstrate(out: OStream, n: int, age: Token, line: string)
    requires 2 <= n <= 5
    modifies out
    ensures IsDecimal(old(out.flags)) ==> IsDecimal(out.flags)
    ensures n == 2 ==> out.flags == old(out.flags).(base := Dec, uppercase := false)
    ensures n != 2 ==> out.flags == old(out.flags)
    ensures out.precision == if n == 3 then 6 else old(out.precision)
    ensures out.width == 0
  {
    if n == 2 {
      StreamStateCorruption(out);
    } else if n == 3 {
      PrecisionVulnerabilities(out);
    } else if n == 4 {
      var _ := InputValidation(out, age);
    } else {
      var _ := SecurePractices(out, line);
    }
  }

  // ---------------------------------------------------------------------------
  // The menu of `run_vulnerability_tests`
  // ---------------------------------------------------------------------------

  /** What one pass of the menu does. */
  datatype Action = RunDemo(n: int) | InvalidInput | InvalidChoice | Exiting

  /** How `std::cin >> choice` leaves `choice` (C++11 rules): the value read;
      `INT_MAX` or `INT_MIN` when it is out of range (extraction fails); 0
      when the text is no number (fails); unchanged at end of input, where
      the stream fails before any conversion. */
  function Extract(previous: int32, t: Token): (r: (bool, int32))
  {
    match t
    case Number(v) =>
      if v > MAX then (false, MAX as int32)
      else if v < MIN then (false, MIN as int32)
      else (true, v as int32)
    case NotNumber => (false, 0)
    case EndOfInput => (false, previous)
  }

  /** The action for a successfully read choice. */
  function Choose(choice: int32): (a: Action)
    ensures a.RunDemo? <==> 2 <= choice <= 5
    ensures a == Exiting <==> choice == 0
    ensures a.RunDemo? ==> a.n == choice
    ensures a != InvalidInput
  {
    if 2 <= choice <= 5 then RunDemo(choice)
    else if choice == 0 then Exiting
    else InvalidChoice
  }

  /** One pass of the do-while loop as written: read, then either report
      invalid input and `continue` to the loop test, or dispatch. The loop
      goes on while the resulting `choice` is not 0. */
  function AsWrittenPass(previous: int32, t: Token): (r: (Action, int32, bool))
  {
    var (ok, choice) := Extract(previous, t);
    var action := if ok then Choose(choice) else InvalidInput;
    (action, choice, choice != 0)
  }

  /** As written, text that is no number ends the menu: the failed
      extraction stores 0 and `continue` goes to the loop test. */
  lemma AsWrittenNotNumberExits(previous: int32)
    ensures AsWrittenPass(previous, NotNumber) == (InvalidInput, 0, false)
  {
  }

  /** As written, end of input after any non-zero choice never ends the
      menu: the pass leaves `choice` as it was and loops, and as the input
      stays at its end, every later pass is the same one. */
  lemma {:induction false} AsWrittenEndOfInputLoops(previous: int32, passes: nat)
    requires previous != 0
    ensures AsWrittenPass(previous, EndOfInput) == (InvalidInput, previous, true)
    ensures AsWrittenPasses(previous, seq(passes, _ => EndOfInput)) == (seq(passes, _ => InvalidInput), true)
  {
    var ts := seq(passes, _ => EndOfInput);
    if passes == 0 {
      assert ts == [] && seq(passes, _ => InvalidInput) == [];
    } else {
      AsWrittenEndOfInputLoops(previous, passes - 1);
      assert ts[0] == EndOfInput && ts[1..] == seq(passes - 1, _ => EndOfInput);
      var rest := AsWrittenPasses(previous, ts[1..]);
      assert AsWrittenPasses(previous, ts) == ([InvalidInput] + rest.0, rest.1);
      assert seq(passes, _ => InvalidInput) == [InvalidInput] + seq(passes - 1, _ => InvalidInput);
    }
  }

  /** Passes of the as-written loop over a run of tokens, until the loop
      test fails; the flag says whether the loop is still going. */
  function AsWrittenPasses(previous: int32, ts: seq<Token>): (seq<Action>, bool)
    decreases ts
  {
    if ts == [] then ([], true)
    else
      var (a, choice, going) := AsWrittenPass(previous, ts[0]);
      if !going then ([a], false)
      else
        var (rest, stillGoing) := AsWrittenPasses(choice, ts[1..]);
        ([a] + rest, stillGoing)
  }

  /** The menu as evidently intended: a failed read reports invalid input
      and prompts again, end of input ends the menu, 0 exits. */
  function MenuActions(ts: seq<Token>): seq<Action>
  {
    if ts == [] || ts[0].EndOfInput? then []
    else if ts[0].NotNumber? || !(MIN <= ts[0].v <= MAX) then [InvalidInput] + MenuActions(ts[1..])
    else if ts[0].v == 0 then [Exiting]
    else [Choose(ts[0].v)] + MenuActions(ts[1..])
  }

  /** The intended menu runs one pass per token up to the first 0 or the
      end of input, and never longer than the input; only a 0 exits, and
      only 2 to 5 run a demonstration. */
  lemma {:induction false} MenuActionsFacts(ts: seq<Token>)
    ensures |MenuActions(ts)| <= |ts|
    ensures forall k :: 0 <= k < |MenuActions(ts)| ==> var a := MenuActions(ts)[k];
              (a.RunDemo? ==> 2 <= a.n <= 5) && (a == Exiting ==> k == |MenuActions(ts)| - 1)
  {
    if ts != [] && !ts[0].EndOfInput? {
      MenuActionsFacts(ts[1..]);
    }
  }

  /** Where the written loop goes on, the intended menu agrees with it: on
      numbers in range, both take the same passes. */
  lemma {:induction false} AsWrittenAgreesOnNumbers(previous: int32, ts: seq<Token>)
    requires forall k :: 0 <= k < |ts| ==> ts[k].Number? && MIN <= ts[k].v <= MAX
    ensures AsWrittenPasses(previous, ts).0 == MenuActions(ts)
    decreases ts
  {
    if ts != [] {
      AsWrittenAgreesOnNumbers(ts[0].v, ts[1..]);
    }
  }

  /** The intended menu loop. */
  method Menu(tokens: seq<Token>) returns (actions: seq<Action>)
    ensures actions == MenuActions(tokens)
  {
    actions := [];
    var i := 0;
    while i < |tokens|
      invariant 0 <= i <= |tokens|
      invariant actions + MenuActions(tokens[i..]) == MenuActions(tokens)
    {
      var t := tokens[i];
      assert tokens[i..][0] == t && tokens[i..][1..] == tokens[i + 1..];
      if t.EndOfInput? {
        return;
      }
      if t.NotNumber? || t.v > MAX || t.v < MIN {
        actions := actions + [InvalidInput];
      } else if t.v == 0 {
        actions := actions + [Exiting];
        return;
      } else {
        actions := actions + [Choose(t.v)];
      }
      i := i + 1;
    }
  }
}
