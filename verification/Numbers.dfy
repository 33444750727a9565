/**
  The number texts of the option grammar: decimal integers, and 32-bit floats.

  A float is a sign and a non-negative real that the type holds. Reading a text rounds the decimal it denotes to
  the nearest such value; printing rounds the value to one or two decimals.
 */
module Numbers {
  import opened Text
  import opened Singles

  const U32_LIMIT: nat := 0x1_0000_0000
  const USIZE_LIMIT: nat := 0x1_0000_0000_0000_0000

  /** The bound from which a decimal rounds to infinity. */
  const F32_OVERFLOW: real := 340282356779733661637539395458142568448.0

  datatype Float = Float(negative: bool, magnitude: real)

  type Finite = f: Float | 0.0 <= f.magnitude <= F32_MAX && IsSingle(f.magnitude) witness Whole(0)

  function Whole(n: nat): (f: Float)
    requires n <= 16777216
    ensures f == Float(false, n as real) && f.magnitude <= F32_MAX && IsSingle(f.magnitude)
  {
    NarrowWhole(n);
    Float(false, n as real)
  }

  const ONE: Finite := Whole(1)

  predicate IsDigit(c: char) {
    '0' <= c <= '9'
  }

  predicate AllDigits(s: string) {
    forall i :: 0 <= i < |s| ==> IsDigit(s[i])
  }

  function DigitChar(d: nat): (c: char)
    requires d < 10
    ensures IsDigit(c)
  {
    '0' + d as char
  }

  function DigitValue(c: char): (d: nat)
    requires IsDigit(c)
    ensures d < 10
  {
    (c - '0') as int
  }

  /** Decimal text of an unsigned integer. */
  function Decimal(n: nat): (s: string)
    ensures s != [] && AllDigits(s)
  {
    if n < 10 then [DigitChar(n)] else Decimal(n / 10) + [DigitChar(n % 10)]
  }

  function DigitsValue(s: string): nat
    requires AllDigits(s)
  {
    if s == [] then 0 else DigitsValue(s[..|s| - 1]) * 10 + DigitValue(s[|s| - 1])
  }

  /** `str::parse` for an unsigned integer type below `limit`: an optional plus sign, then digits. */
  function ParseUnsigned(s: string, limit: nat): (n: Option<nat>)
    ensures n.Some? ==> n.value < limit
  {
    var body := if s != [] && s[0] == '+' then s[1..] else s;
    if body == [] || !AllDigits(body) then None
    else if DigitsValue(body) < limit then Some(DigitsValue(body))
    else None
  }

  lemma {:induction false} DecimalValue(n: nat)
    ensures DigitsValue(Decimal(n)) == n
  {
    if n >= 10 {
      DecimalValue(n / 10);
      assert Decimal(n)[..|Decimal(n)| - 1] == Decimal(n / 10);
    }
  }

  /** Reading the decimal text of an integer gives it back, for every integer the type can hold. */
  lemma UnsignedRoundTrip(n: nat, limit: nat)
    requires n < limit
    ensures ParseUnsigned(Decimal(n), limit) == Some(n)
  {
    DecimalValue(n);
  }

  // ---------------------------------------------------------------------------
  // Floats
  // ---------------------------------------------------------------------------

  function Pow10(e: nat): (r: real)
    ensures r >= 1.0
  {
    if e == 0 then 1.0 else 10.0 * Pow10(e - 1)
  }

  function Shifted(digits: nat, exponent: int): (r: real)
    ensures r >= 0.0
  {
    if exponent >= 0 then digits as real * Pow10(exponent) else digits as real / Pow10(-exponent)
  }

  /** The digits of `12`, `12.`, `.5` or `12.5`, and how many of them follow the point. */
  function ParseMantissa(s: string): Option<(nat, nat)> {
    match IndexOf(s, '.')
    case None =>
      if s != [] && AllDigits(s) then Some((DigitsValue(s), 0)) else None
    case Some(k) =>
      var digits := s[..k] + s[k + 1..];
      if digits != [] && AllDigits(digits) then Some((DigitsValue(digits), |s| - k - 1)) else None
  }

  /** The digits after `e`, with an optional sign. */
  function ParseExponent(s: string): Option<int> {
    var body := if s != [] && (s[0] == '+' || s[0] == '-') then s[1..] else s;
    if body == [] || !AllDigits(body) then None
    else if s[0] == '-' then Some(0 - DigitsValue(body))
    else Some(DigitsValue(body))
  }

  function ExponentMark(s: string): Option<nat> {
    match (IndexOf(s, 'e'), IndexOf(s, 'E'))
    case (Some(i), Some(j)) => Some(if i < j then i else j)
    case (Some(i), None) => Some(i)
    case (None, j) => j
  }

  /** The finite float nearest to a magnitude; `None` is infinity. */
  function ToRange(magnitude: real): (r: Option<real>)
    requires magnitude >= 0.0
    ensures r.Some? ==> r.value <= F32_MAX && IsSingle(r.value)
  {
    MaxIsSingle();
    if magnitude >= F32_OVERFLOW then None
    else if magnitude > F32_MAX then Some(F32_MAX)
    else NarrowInRange(magnitude); Some(Narrow(magnitude))
  }

  /** The value of an unsigned float text. */
  function ParseMagnitude(body: string): (value: Option<real>)
    ensures value.Some? ==> value.value >= 0.0
  {
    var mark := ExponentMark(body);
    var mantissa := if mark.Some? then ParseMantissa(body[..mark.value]) else ParseMantissa(body);
    var exponent := if mark.Some? then ParseExponent(body[mark.value + 1..]) else Some(0);
    match (mantissa, exponent)
    case (Some((digits, scale)), Some(e)) => Some(Shifted(digits, e - scale))
    case _ => None
  }

  function SignBody(s: string): string {
    if s != [] && (s[0] == '+' || s[0] == '-') then s[1..] else s
  }

  /** A finite 32-bit float text. `nan`, `inf` and every overflow give `None`, like every malformed text. */
  function ParseFinite(s: string): Option<Finite> {
    match ParseMagnitude(SignBody(s))
    case None => None
    case Some(exact) =>
      match ToRange(exact)
      case None => None
      case Some(magnitude) => Some(Float(s != [] && s[0] == '-', magnitude))
  }

  /** The count of units (tenths or hundredths) that the text with `places` digits shows. */
  function Units(f: Finite, places: nat): (n: nat)
    requires 1 <= places <= 2
  {
    RoundHalfEven(Multiple(f.magnitude, Unit(places)))
  }

  function Unit(places: nat): nat
    requires 1 <= places <= 2
  {
    if places == 1 then 10 else 100
  }

  /** The decimal that `n` units stand for. */
  function UnitsValue(n: nat, places: nat): (x: real)
    requires 1 <= places <= 2
    ensures x >= 0.0
  {
    n as real / Unit(places) as real
  }

  function WholeDigits(n: nat, places: nat): (s: string)
    requires 1 <= places <= 2
    ensures s != [] && AllDigits(s)
  {
    Decimal(if places == 1 then n / 10 else n / 100)
  }

  function FractionDigits(n: nat, places: nat): (s: string)
    requires 1 <= places <= 2
    ensures |s| == places && AllDigits(s)
  {
    if places == 1 then [DigitChar(n % 10)] else [DigitChar(n / 10 % 10), DigitChar(n % 10)]
  }

  /** The unsigned text of `n` units. */
  function FixedBody(n: nat, places: nat): (s: string)
    requires 1 <= places <= 2
    ensures s != [] && IsDigit(s[0])
    ensures forall i :: 0 <= i < |s| ==> IsDigit(s[i]) || s[i] == '.'
  {
    WholeDigits(n, places) + ['.'] + FractionDigits(n, places)
  }

  /** `format!("{:.places}")` for one or two places. */
  function FormatFixed(f: Finite, places: nat): (s: string)
    requires 1 <= places <= 2
    ensures s != []
    ensures forall i :: 0 <= i < |s| ==> IsDigit(s[i]) || s[i] == '.' || s[i] == '-'
  {
    var body := FixedBody(Units(f, places), places);
    if f.negative then ['-'] + body else body
  }

  /** The float nearest to the decimal that the printed text denotes. */
  function Quantize(f: Finite, places: nat): Finite
    requires 1 <= places <= 2
  {
    UnitsBound(f, places);
    NarrowInRange(UnitsValue(Units(f, places), places));
    Float(f.negative, Narrow(UnitsValue(Units(f, places), places)))
  }

  lemma UnitsBound(f: Finite, places: nat)
    requires 1 <= places <= 2
    ensures UnitsValue(Units(f, places), places) <= F32_MAX
  {
    hide IsSingle;
    var top := 340282346638528859811704183484516925440 * (if places == 1 then 10 else 100);
    assert Multiple(f.magnitude, Unit(places)) <= top as real;
    RoundBelow(Multiple(f.magnitude, Unit(places)), top);
  }

  lemma DigitsAppend(s: string, c: char)
    requires AllDigits(s) && IsDigit(c)
    ensures AllDigits(s + [c])
    ensures DigitsValue(s + [c]) == DigitsValue(s) * 10 + DigitValue(c)
  {
    assert (s + [c])[..|s|] == s;
  }

  lemma FixedDigits(n: nat, places: nat)
    requires 1 <= places <= 2
    ensures AllDigits(WholeDigits(n, places) + FractionDigits(n, places))
    ensures DigitsValue(WholeDigits(n, places) + FractionDigits(n, places)) == n
  {
    hide Decimal, DigitsValue, DigitValue;
    if places == 1 { OneDecimal(n); } else { TwoDecimals(n); }
  }

  lemma OneDecimal(n: nat)
    ensures AllDigits(Decimal(n / 10) + [DigitChar(n % 10)])
    ensures DigitsValue(Decimal(n / 10) + [DigitChar(n % 10)]) == n
  {
    hide Decimal, DigitsValue;
    DigitsAppend(Decimal(n / 10), DigitChar(n % 10));
    DecimalValue(n / 10);
  }

  lemma TwoDecimals(n: nat)
    ensures AllDigits(Decimal(n / 100) + [DigitChar(n / 10 % 10), DigitChar(n % 10)])
    ensures DigitsValue(Decimal(n / 100) + [DigitChar(n / 10 % 10), DigitChar(n % 10)]) == n
  {
    hide Decimal, DigitsValue;
    var whole, tens, ones := Decimal(n / 100), DigitChar(n / 10 % 10), DigitChar(n % 10);
    DecimalValue(n / 100);
    DigitsAppend(whole, tens);
    DigitsAppend(whole + [tens], ones);
    assert whole + [tens, ones] == whole + [tens] + [ones];
    assert n == n / 100 * 100 + n / 10 % 10 * 10 + n % 10;
  }

  lemma MantissaOfFixed(n: nat, places: nat)
    requires 1 <= places <= 2
    ensures ParseMantissa(FixedBody(n, places)) == Some((n, places))
  {
    var whole, frac := WholeDigits(n, places), FractionDigits(n, places);
    var s := whole + ['.'] + frac;
    IndexOfKey(whole, frac, '.');
    assert s[..|whole|] + s[|whole| + 1..] == whole + frac;
    FixedDigits(n, places);
  }

  lemma MagnitudeOfFixed(n: nat, places: nat)
    requires 1 <= places <= 2
    ensures ParseMagnitude(FixedBody(n, places)) == Some(UnitsValue(n, places))
  {
    assert ExponentMark(FixedBody(n, places)) == None;
    MantissaOfFixed(n, places);
    ShiftedByPlaces(n, places);
  }

  /** Reading a printed float gives the float nearest to its printed decimal, sign of zero included. */
  lemma FloatRoundTrip(f: Finite, places: nat)
    requires 1 <= places <= 2
    ensures ParseFinite(FormatFixed(f, places)) == Some(Quantize(f, places))
  {
    hide Narrow, IsSingle, Units;
    var n := Units(f, places);
    UnitsBound(f, places);
    MagnitudeOfFixed(n, places);
    SignOf(f, places);
    hide FormatFixed, FixedBody, ParseMagnitude, UnitsValue;
  }

  lemma SignOf(f: Finite, places: nat)
    requires 1 <= places <= 2
    ensures SignBody(FormatFixed(f, places)) == FixedBody(Units(f, places), places)
    ensures FormatFixed(f, places)[0] == '-' <==> f.negative
  {
    hide Units, IsSingle;
  }

  lemma ShiftedByPlaces(n: nat, places: nat)
    requires 1 <= places <= 2
    ensures Shifted(n, 0 - places) == UnitsValue(n, places)
  {
    assert Pow10(1) == 10.0;
    assert Pow10(2) == 10.0 * Pow10(1);
  }

  /** Reading a printed float changes it, but not what it prints: both decimals are the same. */
  lemma PrintedAgain(f: Finite, places: nat)
    requires 1 <= places <= 2
    ensures Units(Quantize(f, places), places) == Units(f, places)
    ensures FormatFixed(Quantize(f, places), places) == FormatFixed(f, places)
    ensures Quantize(Quantize(f, places), places) == Quantize(f, places)
  {
    hide Narrow, IsSingle;
    PrintedUnits(f.magnitude, Unit(places), Units(f, places));
  }

  /** Printed texts agree exactly when the rounded values agree. */
  lemma FixedTextsAgree(f: Finite, g: Finite, places: nat)
    requires 1 <= places <= 2
    ensures FormatFixed(f, places) == FormatFixed(g, places) <==> Quantize(f, places) == Quantize(g, places)
  {
    FloatRoundTrip(f, places);
    FloatRoundTrip(g, places);
    PrintedAgain(f, places);
    PrintedAgain(g, places);
  }

  /** Two known texts: digits run from the highest down. */
  lemma KnownNumbers()
    ensures Decimal(305) == "305" && ParseUnsigned("305", U32_LIMIT) == Some(305)
  {
    assert Decimal(3) == "3" && Decimal(30) == "30";
    assert Decimal(305) == "305";
    UnsignedRoundTrip(305, U32_LIMIT);
  }

  /** Known float texts: with an exponent of either sign, and with a digit missing on either side of the point. */
  lemma KnownFloats()
    ensures ParseFinite("1e2") == Some(Float(false, 100.0)) && ParseFinite("-25E-2") == Some(Float(true, 0.25))
    ensures ParseFinite(".5") == Some(Float(false, 0.5)) && ParseFinite("+5.") == Some(Float(false, 5.0))
    ensures ParseFinite("1e39") == None && ParseFinite("nan") == None && ParseFinite("") == None
  {
    KnownMagnitudes();
    KnownValues();
    hide Narrow, ParseMagnitude;
    assert SignBody("-25E-2") == "25E-2" && SignBody("+5.") == "5.";
  }

  lemma KnownValues()
    ensures Narrow(100.0) == 100.0 && Narrow(5.0) == 5.0 && Narrow(0.25) == 0.25 && Narrow(0.5) == 0.5
  {
    NarrowWhole(100);
    NarrowWhole(5);
    NarrowWholeAt(1, 1);
    NarrowWholeAt(1, 2);
  }

  lemma ExponentText(mantissa: string, mark: char, exponent: string)
    requires 'e' !in mantissa && 'E' !in mantissa && (mark == 'e' || mark == 'E')
    requires 'e' !in exponent && 'E' !in exponent
    ensures ParseMagnitude(mantissa + [mark] + exponent)
         == match (ParseMantissa(mantissa), ParseExponent(exponent)) {
              case (Some((digits, scale)), Some(e)) => Some(Shifted(digits, e - scale))
              case _ => None
            }
  {
    hide ParseMantissa, ParseExponent, Shifted, IndexOf;
    IndexOfKey(mantissa, exponent, mark);
    var s := mantissa + [mark] + exponent;
    assert s[..|mantissa|] == mantissa && s[|mantissa| + 1..] == exponent;
    assert (if mark == 'e' then 'E' else 'e') !in s;
    assert ExponentMark(s) == Some(|mantissa|);
    hide ExponentMark;
  }

  lemma PlainText(mantissa: string)
    requires 'e' !in mantissa && 'E' !in mantissa
    ensures ParseMagnitude(mantissa)
         == match ParseMantissa(mantissa) {
              case Some((digits, scale)) => Some(Shifted(digits, 0 - scale))
              case None => None
            }
  {
    hide ParseMantissa, ParseExponent, Shifted, IndexOf;
    assert ExponentMark(mantissa) == None;
  }

  lemma KnownMagnitudes()
    ensures ParseMagnitude("1e2") == Some(100.0) && ParseMagnitude("25E-2") == Some(0.25)
    ensures ParseMagnitude(".5") == Some(0.5) && ParseMagnitude("5.") == Some(5.0)
    ensures ParseMagnitude("1e39") == Some(1000000000000000000000000000000000000000.0)
    ensures ParseMagnitude("nan") == None && ParseMagnitude("") == None
  {
    hide ParseMagnitude, ParseMantissa, ParseExponent, Pow10;
    KnownDigits();
    KnownPowers();
    PlainText(".5");
    PlainText("5.");
    PlainText("nan");
    PlainText("");
    ExponentText("1", 'e', "2");
    ExponentText("25", 'E', "-2");
    ExponentText("1", 'e', "39");
    assert "1" + ['e'] + "2" == "1e2" && "25" + ['E'] + "-2" == "25E-2" && "1" + ['e'] + "39" == "1e39";
  }

  lemma KnownDigits()
    ensures ParseMantissa("1") == Some((1, 0)) && ParseMantissa("25") == Some((25, 0))
    ensures ParseMantissa(".5") == Some((5, 1)) && ParseMantissa("5.") == Some((5, 0))
    ensures ParseMantissa("nan") == None && ParseMantissa("") == None
    ensures ParseExponent("2") == Some(2) && ParseExponent("-2") == Some(-2) && ParseExponent("39") == Some(39)
  {
    KnownIntegers();
    KnownPoints();
    KnownExponents();
  }

  lemma KnownIntegers()
    ensures ParseMantissa("1") == Some((1, 0)) && ParseMantissa("25") == Some((25, 0))
    ensures ParseMantissa("nan") == None && ParseMantissa("") == None
  {
    assert DigitsValue("1") == 1 && "25"[..1] == "2" && DigitsValue("2") == 2 && DigitsValue("25") == 25;
    hide DigitsValue;
  }

  lemma KnownPoints()
    ensures ParseMantissa(".5") == Some((5, 1)) && ParseMantissa("5.") == Some((5, 0))
  {
    assert DigitsValue("5") == 5;
    IndexOfKey("", "5", '.');
    IndexOfKey("5", "", '.');
    hide DigitsValue, IndexOf;
    assert "" + ['.'] + "5" == ".5" && "5" + ['.'] + "" == "5.";
    assert ".5"[..0] + ".5"[1..] == "5" && "5."[..1] + "5."[2..] == "5";
  }

  lemma KnownExponents()
    ensures ParseExponent("2") == Some(2) && ParseExponent("-2") == Some(-2) && ParseExponent("39") == Some(39)
  {
    assert "39"[..1] == "3" && DigitsValue("3") == 3 && DigitsValue("39") == 39 && DigitsValue("2") == 2;
    hide DigitsValue;
    assert "-2"[1..] == "2";
  }

  lemma KnownPowers()
    ensures Pow10(0) == 1.0 && Pow10(1) == 10.0 && Pow10(2) == 100.0
    ensures Pow10(39) == 1000000000000000000000000000000000000000.0
  {
    Pow10Adds(13, 13);
    Pow10Adds(26, 13);
    assert Pow10(7) == 10000000.0;
    Pow10Adds(7, 6);
    assert Pow10(6) == 1000000.0;
  }

  lemma {:induction false} Pow10Adds(a: nat, b: nat)
    ensures Pow10(a + b) == Pow10(a) * Pow10(b)
    decreases b
  {
    if b > 0 {
      Pow10Adds(a, b - 1);
      assert Pow10(a + b) == 10.0 * Pow10(a + (b - 1));
    }
  }
}
