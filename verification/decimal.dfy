/** A concrete number system for the calculator: signed fixed-point
    decimals with two fractional digits, held as a count of hundredths.

    It stands in for `Double`, `toDoubleOrNull` and `DecimalFormat` where a
    property needs actual numbers: parsing accepts an optional '-', digits
    and at most one point (extra fractional digits are cut off), rejects the
    texts `String.toDouble()` rejects among these ("", "-", "." and "-."),
    and formatting prints no grouping separators and no trailing zeros.
    Division by zero yields 0 here, where `Double` would yield an infinity. */
module Decimal {

  import opened Wrappers
  import opened Numeric

  predicate IsDigitChar(c: char) {
    '0' <= c <= '9'
  }

  /** The value of a run of decimal digits ("" reads as 0). */
  function DigitsValue(ds: string): (v: Option<nat>)
    ensures v.Some? <==> forall i :: 0 <= i < |ds| ==> IsDigitChar(ds[i])
    decreases |ds|
  {
    if ds == [] then Some(0)
    else
      var last := ds[|ds| - 1];
      match DigitsValue(ds[..|ds| - 1])
      case None => None
      case Some(v) =>
        if IsDigitChar(last) then
          Some(v * 10 + (last as int - '0' as int))
        else
          None
  }

  /** Parses the unsigned part: `int`, `int.`, `.frac` or `int.frac`, with
      at least one digit, into hundredths. */
  function ParseUnsigned(body: string): Option<nat> {
    if '.' !in body then
      if body == [] then None
      else
        match DigitsValue(body)
        case None => None
        case Some(v) => Some(v * 100)
    else
      var i := IndexOfDot(body);
      var whole := body[..i];
      var frac := body[i + 1..];
      if whole == [] && frac == [] then None
      else
        match (DigitsValue(whole), DigitsValue((frac + "00")[..2]), DigitsValue(frac))
        case (Some(w), Some(f), Some(_)) => Some(w * 100 + f)
        case _ => None
  }

  /** The position of the first '.' of a text that has one. */
  function IndexOfDot(text: string): (i: nat)
    requires '.' in text
    ensures i < |text| && text[i] == '.'
    ensures '.' !in text[..i]
  {
    if text[0] == '.' then 0 else 1 + IndexOfDot(text[1..])
  }

  /** Text to hundredths; None for text that is not a number. */
  function Parse(text: string): Option<int> {
    if text != [] && text[0] == '-' then
      match ParseUnsigned(text[1..])
      case None => None
      case Some(v) => Some(-(v as int))
    else
      match ParseUnsigned(text)
      case None => None
      case Some(v) => Some(v)
  }

  /** The decimal digits of a natural number, without leading zeros. */
  function NatText(n: nat): (t: string)
    ensures t != []
    ensures forall i :: 0 <= i < |t| ==> IsDigitChar(t[i])
  {
    if n < 10 then ["0123456789"[n]] else NatText(n / 10) + ["0123456789"[n % 10]]
  }

  /** Hundredths to text: sign, whole part, and the fractional digits
      without trailing zeros. */
  function Fmt(x: int): string {
    var a := if x < 0 then -x else x;
    (if x < 0 then "-" else "") + NatText(a / 100) + FracText(a % 100)
  }

  /** The fractional part of a count of hundredths: nothing for a whole
      number, otherwise the point and one or two digits. */
  function FracText(f: nat): string
    requires f < 100
  {
    if f == 0 then ""
    else if f % 10 == 0 then "." + ["0123456789"[f / 10]]
    else "." + ["0123456789"[f / 10], "0123456789"[f % 10]]
  }

  /** Integer division rounding toward zero, as a cast of a `Double`
      quotient would. */
  function Quot(a: int, b: int): int
    requires b != 0
  {
    var q := (if a < 0 then -a else a) / (if b < 0 then -b else b);
    if (a < 0) != (b < 0) then -q else q
  }

  function Mul(a: int, b: int): int {
    Quot(a * b, 100)
  }

  function Div(a: int, b: int): int {
    if b == 0 then 0 else Quot(a * 100, b)
  }

  /** The instance: hundredths with their parser and formatter. */
  const D: Arith<int> := Arith(Parse, Fmt, (a, b) => a + b, (a, b) => a - b, Mul, Div, 0, 10000)

  /** The instance meets the formatter assumption of the dot invariant, so
      that assumption can be met. */
  lemma DecimalFmtHasOneDot()
    ensures FmtHasOneDot(D)
  {
    forall x: int ensures CountDots(D.fmt(x)) <= 1 {
      FmtHasOneDotAt(x);
    }
  }

  /** A text of digits has no point. */
  lemma {:induction false} NoDotsInDigits(t: string)
    requires forall i :: 0 <= i < |t| ==> IsDigitChar(t[i])
    ensures CountDots(t) == 0
  {
    forall i | 0 <= i < |t|
      ensures t[i] != '.'
    {
      assert IsDigitChar(t[i]);
    }
  }

  /** The formatter prints at most one point. */
  lemma FmtHasOneDotAt(x: int)
    ensures CountDots(Fmt(x)) <= 1
  {
    var a := if x < 0 then -x else x;
    var sign: string := if x < 0 then "-" else "";
    var whole := NatText(a / 100);
    var frac := FracText(a % 100);
    assert Fmt(x) == sign + whole + frac;
    NoDotsInDigits(whole);
    FracTextOneDot(a % 100);
    CountDotsConcat(sign, whole);
    CountDotsConcat(sign + whole, frac);
  }

  /** The fractional part holds at most the one point. */
  lemma FracTextOneDot(f: nat)
    requires f < 100
    ensures CountDots(FracText(f)) <= 1
  {
    var t := FracText(f);
    if t != "" {
      NoDotsInDigits(t[1..]);
    }
  }
}
