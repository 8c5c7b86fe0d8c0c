/**
 * The stream-state discussion program: a routine that switches `std::cout`
 * to uppercase hex and puts the flags back, a precision demonstration that
 * leaves a large precision behind, and a safe variant that clamps the
 * user's precision and width and restores everything it changed.
 */
module StreamStateDemo {
  import opened Int32
  import Text
  import opened StreamFormat

  const ACCOUNT_NUMBER: int32 := 12345
  const MAX_PRECISION: int32 := 12
  const MAX_WIDTH: int32 := 50
  const USER_PRECISION: int32 := 50
  const USER_WIDTH: int32 := 1000

  const PROCESSING := "Processing: "
  const BEFORE_RESTORING := "Before restoring state: \n"
  const ACCOUNT := "Account: "
  const SAFE_OUTPUT := "Safe output with validated parameters:"
  const TEST := "test"

  /** `display_account_info`: the account number in whatever base the
      stream is in. */
  method DisplayAccountInfo(out: OStream)
    modifies out
    ensures out.flags == old(out.flags) && out.precision == old(out.precision) && out.width == 0
    ensures out.text == old(out.text) + Pad(ACCOUNT, old(out.width)) + FormatInt(ACCOUNT_NUMBER, old(out.flags)) + "\n"
  {
    out.PutText(ACCOUNT);
    out.PutInt(ACCOUNT_NUMBER);
    out.PutText("\n");
  }

  /** `process_user_data`: the account is shown in uppercase hex, then the
      flags saved on entry are put back; the precision is not touched. */
  method ProcessUserData(out: OStream, data: string)
    modifies out
    ensures out.flags == old(out.flags) && out.precision == old(out.precision) && out.width == 0
    ensures out.text == old(out.text) + Pad(PROCESSING, old(out.width)) + data + "\n" + BEFORE_RESTORING +
                        ACCOUNT + FormatInt(ACCOUNT_NUMBER, HexUpper(old(out.flags))) + "\n"
  {
    var originalFlags := out.flags;
    out.SetBase(Hex);
    out.SetUppercase(true);
    out.PutText(PROCESSING);
    out.PutText(data);
    out.PutText("\n");
    out.PutText(BEFORE_RESTORING);
    DisplayAccountInfo(out);
    out.SetFlags(originalFlags);
  }

  /** Inside `process_user_data` the account shows as "3039"; before and
      after it, on a decimal stream, as "12345". */
  lemma AccountRendering(f: Flags)
    ensures FormatInt(ACCOUNT_NUMBER, HexUpper(f)) == "3039"
    ensures IsDecimal(f) ==> FormatInt(ACCOUNT_NUMBER, f) == "12345"
  {
    HexExamples();
    assert Text.Numeral(12345, 10, false) == Text.Numeral(1234, 10, false) + [Text.DigitChar(5, false)];
    assert Text.Numeral(1234, 10, false) == Text.Numeral(123, 10, false) + [Text.DigitChar(4, false)];
    assert Text.Numeral(123, 10, false) == Text.Numeral(12, 10, false) + [Text.DigitChar(3, false)];
    assert Text.Numeral(12, 10, false) == Text.Numeral(1, 10, false) + [Text.DigitChar(2, false)];
  }

  /** `demonstrate_precision_vulnerability`: the user's precision is set
      and stays; the user's width pads "test". */
  method PrecisionVulnerability(out: OStream, userPrecision: int32, userWidth: int32)
    modifies out
    ensures out.precision == userPrecision && out.flags == old(out.flags) && out.width == 0
    ensures out.text == old(out.text) + "\n" + Pad(TEST, userWidth) + "\n"
  {
    out.SetPrecision(userPrecision);
    out.PutDouble();
    out.PutText("\n");
    out.SetWidth(userWidth);
    out.PutText(TEST);
    out.PutText("\n");
  }

  /** `std::min(user, limit)`. */
  function SafeLimit(user: int32, limit: int32): int32
  {
    if user < limit then user else limit
  }

  /** The clamp never exceeds the limit or the user's value, and lets a
      value within the limit through unchanged. */
  lemma SafeLimitFacts(user: int32, limit: int32)
    ensures SafeLimit(user, limit) <= limit && SafeLimit(user, limit) <= user
    ensures SafeLimit(user, limit) == user <==> user <= limit
    ensures SafeLimit(user, limit) == user || SafeLimit(user, limit) == limit
  {
  }

  /** `demonstrate_safe_precision`: precision and width are clamped to 12
      and 50, `fixed` is set for the one value, and the flags and the
      precision on entry are restored. */
  method SafePrecision(out: OStream, userPrecision: int32, userWidth: int32)
    modifies out
    ensures out.flags == old(out.flags) && out.precision == old(out.precision) && out.width == 0
    ensures out.text == old(out.text) + Pad(SAFE_OUTPUT, old(out.width)) + "\n" + "\n" +
                        Pad(TEST, SafeLimit(userWidth, MAX_WIDTH)) + "\n"
  {
    var originalFlags := out.flags;
    var originalPrecision := out.precision;
    var safePrecision := SafeLimit(userPrecision, MAX_PRECISION);
    var safeWidth := SafeLimit(userWidth, MAX_WIDTH);
    out.PutText(SAFE_OUTPUT);
    out.PutText("\n");
    out.SetPrecision(safePrecision);
    out.SetFixed();
    out.PutDouble();
    out.PutText("\n");
    out.SetWidth(safeWidth);
    out.PutText(TEST);
    out.PutText("\n");
    out.SetFlags(originalFlags);
    out.SetPrecision(originalPrecision);
  }

  /** The widths the two demonstrations pad "test" to: 1000 and 50. */
  lemma PaddedWidths()
    ensures |Pad(TEST, USER_WIDTH)| == 1000
    ensures |Pad(TEST, SafeLimit(USER_WIDTH, MAX_WIDTH))| == 50
  {
    PadShape(TEST, USER_WIDTH);
    PadShape(TEST, MAX_WIDTH);
  }

  const ADJUSTED := "Adjusted output because of stream state:"
  const SHOWING_PRECISION := "Showing precision vulnerability:"
  const SHOWING_SAFE := "Showing safe precision handling:"

  /** `main` on a fresh stream: the account shows as 12345 before and after
      `process_user_data` (the flags were put back), and the program ends
      with the default flags but the precision of 50 the vulnerable
      demonstration left, which the safe one saved and restored. */
  method DiscussionMain() returns (out: OStream)
    ensures out.flags == DEFAULT_FLAGS && out.precision == 50 && out.width == 0
    ensures out.text == ACCOUNT + "12345" + "\n" +
                        PROCESSING + "user entered info" + "\n" + BEFORE_RESTORING + ACCOUNT + "3039" + "\n" +
                        ADJUSTED + "\n" + ACCOUNT + "12345" + "\n" +
                        SHOWING_PRECISION + "\n" + "\n" + Pad(TEST, USER_WIDTH) + "\n" +
                        SHOWING_SAFE + "\n" + SAFE_OUTPUT + "\n" + "\n" + Pad(TEST, MAX_WIDTH) + "\n"
  {
    out := new OStream();
    AccountRendering(DEFAULT_FLAGS);
    DisplayAccountInfo(out);
    ghost var shown := out.text;
    assert shown == ACCOUNT + "12345" + "\n";
    ProcessUserData(out, "user entered info");
    out.PutText(ADJUSTED);
    out.PutText("\n");
    DisplayAccountInfo(out);
    ghost var processed := out.text;
    assert processed == shown + PROCESSING + "user entered info" + "\n" + BEFORE_RESTORING + ACCOUNT + "3039" + "\n" +
                        ADJUSTED + "\n" + ACCOUNT + "12345" + "\n";
    out.PutText(SHOWING_PRECISION);
    out.PutText("\n");
    PrecisionVulnerability(out, USER_PRECISION, USER_WIDTH);
    out.PutText(SHOWING_SAFE);
    out.PutText("\n");
    SafePrecision(out, USER_PRECISION, USER_WIDTH);
    assert out.text == processed + SHOWING_PRECISION + "\n" + "\n" + Pad(TEST, USER_WIDTH) + "\n" +
                        SHOWING_SAFE + "\n" + SAFE_OUTPUT + "\n" + "\n" + Pad(TEST, MAX_WIDTH) + "\n";
  }
}
