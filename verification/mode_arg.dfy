/**
 * The `--mode WIDTHxHEIGHT` argument of `main.rs`: the validator that
 * accepts it, the parser that turns it into the output size, and the size
 * the output is drawn at when it is absent.
 */
module ModeArg {
  import opened Common

  // --------------------------------------------------------- numbers

  predicate IsDigit(c: char)
  {
    '0' <= c <= '9'
  }

  predicate AllDigits(s: string)
  {
    forall i :: 0 <= i < |s| ==> IsDigit(s[i])
  }

  /** The value of a string of decimal digits, most significant first. */
  function DigitsValue(s: string): (v: nat)
    requires AllDigits(s)
  {
    if |s| == 0 then 0
    else DigitsValue(s[..|s| - 1]) * 10 + (s[|s| - 1] as int - '0' as int)
  }

  /** The digits after an optional leading `+`. */
  function Unsigned(s: string): string
  {
    if |s| > 0 && s[0] == '+' then s[1..] else s
  }

  /**
   * `u32::from_str_radix(s, 10)`: an optional `+`, then one or more ASCII
   * digits (leading zeros allowed) whose value fits in 32 bits. A `-` is not
   * a sign for an unsigned type, so it is an invalid digit.
   */
  function ParseU32(s: string): (r: Option<u32>)
    ensures |s| == 0 || s == "+" || s == "-" ==> r.None?
    ensures |s| > 0 && s[0] == '-' ==> r.None?
    ensures r.Some? <==> |Unsigned(s)| > 0 && AllDigits(Unsigned(s)) && DigitsValue(Unsigned(s)) < 0x1_0000_0000
    ensures r.Some? ==> r.value == DigitsValue(Unsigned(s))
  {
    var digits := Unsigned(s);
    if |digits| == 0 || !AllDigits(digits) then None
    else
      var v := DigitsValue(digits);
      if v < 0x1_0000_0000 then Some(v) else None
  }

  /** The canonical decimal form of `n`: no sign and no leading zero. */
  function Decimal(n: nat): (s: string)
    ensures |s| > 0 && AllDigits(s)
    ensures |s| == 1 || s[0] != '0'
  {
    if n < 10 then [('0' as int + n) as char]
    else Decimal(n / 10) + [('0' as int + n % 10) as char]
  }

  /** The digits of `Decimal(n)` are worth `n`. */
  lemma {:induction false} DecimalValue(n: nat)
    ensures DigitsValue(Decimal(n)) == n
  {
    if n >= 10 {
      DecimalValue(n / 10);
      var s := Decimal(n);
      assert s[..|s| - 1] == Decimal(n / 10);
    }
  }

  /** The parser reads back what `Decimal` prints, with or without a `+`. */
  lemma ParseOfDecimal(n: u32)
    ensures ParseU32(Decimal(n)) == Some(n)
    ensures ParseU32("+" + Decimal(n)) == Some(n)
  {
    DecimalValue(n);
    assert Unsigned("+" + Decimal(n)) == Decimal(n);
  }

  /** A digit string without a leading zero is worth at least one. */
  lemma {:induction false} LeadingDigitPositive(s: string)
    requires |s| > 0 && AllDigits(s) && s[0] != '0'
    ensures DigitsValue(s) >= 1
  {
    if |s| > 1 {
      LeadingDigitPositive(s[..|s| - 1]);
    }
  }

  /** A digit string without a leading zero is the canonical form of its value. */
  lemma {:induction false} DecimalOfDigits(s: string)
    requires |s| > 0 && AllDigits(s)
    requires |s| == 1 || s[0] != '0'
    ensures Decimal(DigitsValue(s)) == s
  {
    var v := DigitsValue(s);
    if |s| == 1 {
      assert s == [s[0]];
    } else {
      var init := s[..|s| - 1];
      LeadingDigitPositive(init);
      DecimalOfDigits(init);
      assert v / 10 == DigitsValue(init);
      assert s == init + [s[|s| - 1]];
    }
  }

  /** Every string the parser accepts, written without `+` and leading zeros, is the decimal form of its value. */
  lemma DecimalOfParse(s: string)
    requires ParseU32(s).Some?
    requires s[0] != '+' && (|s| == 1 || s[0] != '0')
    ensures Decimal(ParseU32(s).value) == s
  {
    DecimalOfDigits(s);
  }

  // ------------------------------------------------------------ modes

  /** Why the validator refuses a mode. */
  datatype ModeError =
    | NotNumeric   // some part between the `x`s is not a `u32`
    | WrongCount   // every part is a number, but there are not exactly two

  /** Every part parses as a `u32`. */
  predicate AllNumeric(parts: seq<string>)
  {
    forall i :: 0 <= i < |parts| ==> ParseU32(parts[i]).Some?
  }

  /**
   * The validator of `--mode`: split at every `x`, parse every part (the
   * first failure ends it), and only then require exactly two parts.
   */
  function ValidateMode(s: string): (r: Result<(), ModeError>)
    ensures r.Ok? <==> |Split(s, 'x')| == 2 && AllNumeric(Split(s, 'x'))
    ensures r == Err(NotNumeric) <==> !AllNumeric(Split(s, 'x'))
    ensures r == Err(WrongCount) <==> AllNumeric(Split(s, 'x')) && |Split(s, 'x')| != 2
  {
    var parts := Split(s, 'x');
    if !AllNumeric(parts) then Err(NotNumeric)
    else if |parts| != 2 then Err(WrongCount)
    else Ok(())
  }

  /** The parser of a validated `--mode`: both numbers, each cast `as i32`. */
  function ParseMode(s: string): (r: (int, int))
    requires ValidateMode(s).Ok?
    ensures I32_MIN <= r.0 <= I32_MAX && I32_MIN <= r.1 <= I32_MAX
    ensures r.0 == AsI32(ParseU32(Split(s, 'x')[0]).value)
    ensures r.1 == AsI32(ParseU32(Split(s, 'x')[1]).value)
  {
    var parts := Split(s, 'x');
    (AsI32(ParseU32(parts[0]).value), AsI32(ParseU32(parts[1]).value))
  }

  /** `WIDTHxHEIGHT` in decimal is accepted and parsed back to the two numbers, cast to `i32`. */
  lemma ModeRoundTrip(w: u32, h: u32)
    ensures ValidateMode(Decimal(w) + "x" + Decimal(h)).Ok?
    ensures ParseMode(Decimal(w) + "x" + Decimal(h)) == (AsI32(w), AsI32(h))
  {
    var parts := [Decimal(w), Decimal(h)];
    assert 'x' !in Decimal(w) && 'x' !in Decimal(h);
    assert Join(parts, 'x') == Decimal(w) + "x" + Decimal(h);
    SplitOfJoin(parts, 'x');
    ParseOfDecimal(w);
    ParseOfDecimal(h);
  }

  /** A width or height above `i32::MAX` passes the validator and wraps to a negative size. */
  lemma LargeModeWraps(w: u32, h: u32)
    requires w > I32_MAX
    ensures ValidateMode(Decimal(w) + "x" + Decimal(h)).Ok?
    ensures ParseMode(Decimal(w) + "x" + Decimal(h)).0 == w - 0x1_0000_0000 < 0
  {
    ModeRoundTrip(w, h);
  }

  /** A single number is refused for its count. */
  lemma OneNumberRefused(w: u32)
    ensures ValidateMode(Decimal(w)) == Err(WrongCount)
  {
    assert 'x' !in Decimal(w);
    SplitOfJoin([Decimal(w)], 'x');
    ParseOfDecimal(w);
  }

  /**
   * For any `x`-free parts, the validator's verdict on them joined with `x`
   * is decided part by part: a part that is not a number refuses the whole
   * argument, whatever the count; otherwise the count must be two.
   */
  lemma ValidateJoined(parts: seq<string>)
    requires |parts| >= 1
    requires forall i :: 0 <= i < |parts| ==> 'x' !in parts[i]
    ensures ValidateMode(Join(parts, 'x')).Ok? <==> |parts| == 2 && AllNumeric(parts)
    ensures ValidateMode(Join(parts, 'x')) == Err(NotNumeric) <==> !AllNumeric(parts)
    ensures ValidateMode(Join(parts, 'x')) == Err(WrongCount) <==> AllNumeric(parts) && |parts| != 2
  {
    SplitOfJoin(parts, 'x');
  }

  /** An empty part is not a number, so the parse error wins over the count: `Wx` and the empty string are not numeric. */
  lemma EmptyPartRefused(w: u32)
    ensures ValidateMode(Decimal(w) + "x") == Err(NotNumeric)
    ensures ValidateMode("") == Err(NotNumeric)
  {
    var trailing := [Decimal(w), ""];
    assert 'x' !in Decimal(w);
    SplitOfJoin(trailing, 'x');
    assert Join(trailing, 'x') == Decimal(w) + "x";
    assert ParseU32(trailing[1]).None?;
    assert ParseU32(Split("", 'x')[0]).None?;
  }

  /**
   * The `--mode` value, parsed when given (the validator has accepted it
   * before), or nothing.
   */
  function DestMode(arg: Option<string>): (r: Option<(int, int)>)
    requires arg.Some? ==> ValidateMode(arg.value).Ok?
    ensures r.Some? <==> arg.Some?
    ensures arg.Some? ==> r.value == ParseMode(arg.value)
  {
    if arg.None? then None else Some(ParseMode(arg.value))
  }

  /** The size the output is drawn at: the `--mode` value when given, the source's mode otherwise. */
  function DestSize(destMode: Option<(int, int)>, sourceMode: (int, int)): (r: (int, int))
    ensures destMode.None? ==> r == sourceMode
    ensures destMode.Some? ==> r == destMode.value
  {
    if destMode.Some? then destMode.value else sourceMode
  }

  /** Without `--mode` the output mirrors the source's mode; with one it is drawn at the given size. */
  lemma DestSizeOfArgument(w: u32, h: u32, sourceMode: (int, int))
    ensures DestSize(DestMode(None), sourceMode) == sourceMode
    ensures var arg := Decimal(w) + "x" + Decimal(h);
            ValidateMode(arg).Ok? && DestSize(DestMode(Some(arg)), sourceMode) == (AsI32(w), AsI32(h))
  {
    ModeRoundTrip(w, h);
  }
}
