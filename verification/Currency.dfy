/** Currency codes, amounts and banker's conversion (pkg/db/currency.go). Rates are exact reals. */
module Currency {
  import opened Hashing

  function ToUpper(c: char): char {
    if 'a' <= c <= 'z' then (c as int - 32) as char else c
  }

  function Normalize(code: string): string {
    var t := Trim(code);
    seq(|t|, i requires 0 <= i < |t| => ToUpper(t[i]))
  }

  /** Normalising twice changes nothing. */
  lemma NormalizeIdempotent(code: string)
    ensures Normalize(Normalize(code)) == Normalize(code)
  {
    TrimLeftShape(code);
    TrimRightShape(TrimLeft(code));
    var n := Normalize(code);
    assert TrimRight(TrimLeft(n)) == n;
    assert Normalize(n) == n;
  }

  /** Minor-unit exponent of the thirteen supported codes. */
  function ScaleOf(code: string): Option<int> {
    if code in ["USD", "EUR", "GBP", "CAD", "AUD", "CHF", "SGD", "INR"] then Some(2)
    else if code in ["JPY", "KRW"] then Some(0)
    else if code in ["BHD", "KWD", "TND"] then Some(3)
    else None
  }

  predicate IsCode(c: string) {
    ScaleOf(c).Some?
  }

  lemma CodeIsNormal(c: string)
    requires IsCode(c)
    ensures |c| == 3 && Normalize(c) == c && CurrencyScale(c).Some?
  {
    assert |c| == 3 && 'A' <= c[0] <= 'Z' && 'A' <= c[1] <= 'Z' && 'A' <= c[2] <= 'Z';
    assert TrimRight(TrimLeft(c)) == c;
    assert Normalize(c) == c;
  }

  function CurrencyScale(code: string): Option<int> {
    ScaleOf(Normalize(code))
  }

  predicate IsValidCurrency(code: string) {
    CurrencyScale(code).Some?
  }

  /** ValidateMoney; ValidateAmount is the case nanos == scale == 0. */
  predicate ValidateMoney(currency: string, units: int, nanos: int, scale: int) {
    && IsValidCurrency(currency)
    && (scale == 0 || scale == CurrencyScale(currency).value)
    && 0 <= nanos <= 999_999_999
    && units >= 0
    && !(units == 0 && nanos == 0)
    && (CurrencyScale(currency).value == 0 ==> nanos == 0)
  }

  predicate ValidateAmount(units: int, currency: string) {
    ValidateMoney(currency, units, 0, 0)
  }

  // ---- rounding ----

  /** math.RoundToEven. */
  function RoundToEven(x: real): (n: int)
    ensures n as real - 0.5 <= x <= n as real + 0.5
    ensures x == n as real - 0.5 || x == n as real + 0.5 ==> n % 2 == 0
  {
    var f := x.Floor;
    var d := x - f as real;
    if d < 0.5 then f
    else if d > 0.5 then f + 1
    else if f % 2 == 0 then f
    else f + 1
  }

  /** The nearest integer, ties to even, is unique: the contract above determines RoundToEven. */
  lemma RoundToEvenIsUnique(x: real, n: int)
    requires n as real - 0.5 <= x <= n as real + 0.5
    requires x == n as real - 0.5 || x == n as real + 0.5 ==> n % 2 == 0
    ensures n == RoundToEven(x)
  {
    var r := RoundToEven(x);
    assert -1 <= n - r <= 1;
  }

  function Pow10(e: int): real
    decreases if e < 0 then -e else e
  {
    if e == 0 then 1.0 else if e > 0 then 10.0 * Pow10(e - 1) else Pow10(e + 1) / 10.0
  }

  lemma {:induction false} Pow10Positive(e: int)
    ensures Pow10(e) > 0.0
    decreases if e < 0 then -e else e
  {
    if e > 0 {
      Pow10Positive(e - 1);
    } else if e < 0 {
      Pow10Positive(e + 1);
    }
  }

  /** Between minor units; one when a code is unknown, which is the plain ConvertUnitsBankers. */
  function ScaleFactor(base: string, target: string): real {
    match (CurrencyScale(base), CurrencyScale(target))
    case (Some(b), Some(t)) => Pow10(t - b)
    case _ => 1.0
  }

  /** Rounded value of an exact amount, with the floor at one minor unit. */
  function AtLeastOne(exact: real): int {
    var converted := RoundToEven(exact);
    if converted < 1 then 1 else converted
  }

  /** The value that ConvertUnitsScaleBankers rounds. */
  function ExactValue(units: int, base: string, target: string, rate: real): real {
    units as real * rate * ScaleFactor(base, target)
  }

  function ConvertUnitsScaleBankers(sourceUnits: int, base: string, target: string, rate: real): int {
    if sourceUnits <= 0 || rate <= 0.0 then 0 else AtLeastOne(ExactValue(sourceUnits, base, target, rate))
  }

  lemma AtLeastOneAccuracy(exact: real)
    ensures var got := AtLeastOne(exact);
            got >= 1 && exact <= got as real + 0.5 && (got as real - 0.5 <= exact || (got == 1 && exact <= 0.5))
  {
  }

  /** A conversion is within half a minor unit of the exact value, or is the one-unit floor. */
  lemma ConversionAccuracy(units: int, base: string, target: string, rate: real)
    requires units > 0 && rate > 0.0
    ensures var exact := ExactValue(units, base, target, rate);
            var got := ConvertUnitsScaleBankers(units, base, target, rate);
            got >= 1 && exact <= got as real + 0.5 && (got as real - 0.5 <= exact || (got == 1 && exact <= 0.5))
  {
    AtLeastOneAccuracy(ExactValue(units, base, target, rate));
  }

  /** Converting a currency into itself at rate one returns the amount unchanged. */
  lemma IdentityConversion(units: int, currency: string)
    requires units > 0
    ensures ConvertUnitsScaleBankers(units, currency, currency, 1.0) == units
  {
    assert ScaleFactor(currency, currency) == 1.0;
    RoundToEvenIsUnique(units as real, units);
  }
}
