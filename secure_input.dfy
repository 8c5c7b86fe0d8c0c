/**
 * The secure alternative of the buffer-overflow demonstration: a line read
 * into a `std::string` is cut to 15 chars and every char outside printable
 * ASCII is overwritten with '?'; and the menu that picks which halves of the
 * demonstration run.
 *
 * A C++ `char` is a byte; whether it compares as signed (-128..127) or
 * unsigned (0..255) depends on the platform, so that is a parameter.
 */
module SecureInput {

  type byte = x: int | 0 <= x < 256

  const MAX_LENGTH: nat := 15
  const QUESTION_MARK: byte := 63

  /** The value a `char` holding `b` compares as. */
  function CharValue(b: byte, signed: bool): int
  {
    if signed && b >= 128 then b - 256 else b
  }

  /** `s.substr(0, max)` when `s` is longer than `max`. */
  function Truncate(s: seq<byte>, max: nat): (r: seq<byte>)
    ensures |r| == if |s| > max then max else |s|
    ensures r == s[..|r|]
  {
    if |s| > max then s[..max] else s
  }

  predicate IsPrintable(b: byte)
  {
    32 <= b <= 126
  }

  /** `if (c < 32 || c > 126) c = '?';` */
  function Sanitize(b: byte, signed: bool): byte
  {
    var v := CharValue(b, signed);
    if v < 32 || v > 126 then QUESTION_MARK else b
  }

  /** On either kind of `char`, a printable byte is kept and any other byte,
      including those from 0x80 up, becomes '?'; so the result is always
      printable and the same on both kinds. */
  lemma SanitizeBySignedness(b: byte)
    ensures Sanitize(b, true) == Sanitize(b, false)
    ensures IsPrintable(b) ==> Sanitize(b, true) == b
    ensures !IsPrintable(b) ==> Sanitize(b, true) == QUESTION_MARK
    ensures IsPrintable(Sanitize(b, true))
  {
  }

  /** The text the secure alternative ends with. */
  function SecureText(input: seq<byte>, signed: bool): (r: seq<byte>)
  {
    var t := Truncate(input, MAX_LENGTH);
    seq(|t|, k requires 0 <= k < |t| => Sanitize(t[k], signed))
  }

  /** The secure text is at most 15 chars, the input's first chars with
      every non-printable one replaced by '?', all printable, and the same
      on signed and unsigned `char`. */
  lemma SecureTextFacts(input: seq<byte>, signed: bool)
    ensures var r := SecureText(input, signed);
            |r| == (if |input| > MAX_LENGTH then MAX_LENGTH else |input|) &&
            (forall k :: 0 <= k < |r| ==> IsPrintable(r[k])) &&
            (forall k :: 0 <= k < |r| ==> (r[k] == input[k] <==> IsPrintable(input[k]) || input[k] == QUESTION_MARK)) &&
            r == SecureText(input, !signed)
  {
    var r := SecureText(input, signed);
    forall k | 0 <= k < |r| ensures IsPrintable(r[k]) && r[k] == SecureText(input, !signed)[k] {
      SanitizeBySignedness(input[k]);
    }
  }

  /** Sanitising its own output changes nothing. */
  lemma SecureTextIdempotent(input: seq<byte>, signed: bool)
    ensures SecureText(SecureText(input, signed), signed) == SecureText(input, signed)
  {
    var r := SecureText(input, signed);
    SecureTextFacts(input, signed);
    forall k | 0 <= k < |r| ensures Sanitize(r[k], signed) == r[k] {
      SanitizeBySignedness(r[k]);
    }
  }

  /** `secureAlternative`: the line is truncated, then its chars are
      overwritten in place. */
  method SecureAlternative(line: seq<byte>, signed: bool) returns (safeInput: seq<byte>)
    ensures safeInput == SecureText(line, signed)
  {
    var t := line;
    if |t| > MAX_LENGTH {
      t := t[..MAX_LENGTH];
    }
    var buffer := new byte[|t|](k requires 0 <= k < |t| => t[k]);
    for i := 0 to buffer.Length
      invariant forall k :: 0 <= k < i ==> buffer[k] == Sanitize(t[k], signed)
      invariant forall k :: i <= k < buffer.Length ==> buffer[k] == t[k]
    {
      var v := CharValue(buffer[i], signed);
      if v < 32 || v > 126 {
        buffer[i] := QUESTION_MARK;
      }
    }
    safeInput := buffer[..];
  }

  /** Which halves of the demonstration a menu choice runs. */
  datatype Demos = Demos(vulnerable: bool, secure: bool)

  /** `main`'s dispatch on the extracted choice (0 when extraction fails):
      1 runs the vulnerable half, 2 the secure half, anything else both. */
  function Dispatch(choice: int): (r: Demos)
    ensures r.vulnerable <==> choice != 2
    ensures r.secure <==> choice != 1
  {
    if choice == 1 then Demos(true, false)
    else if choice == 2 then Demos(false, true)
    else Demos(true, true)
  }
}
