/** Published rates and quoted amounts (cmd/fx-service/engine.go:102-132, 238-316, 338-372, 407-449). Rates are
    exact. */
module FxRates {
  import opened Hashing
  import opened Currency

  /** math.Round: to the nearest integer, halves away from zero. */
  function Round(x: real): (n: int)
    ensures n as real - 0.5 <= x <= n as real + 0.5
    ensures x == n as real - 0.5 ==> n > 0
    ensures x == n as real + 0.5 ==> n < 0
  {
    if x >= 0.0 then (x + 0.5).Floor else -((0.5 - x).Floor)
  }

  function RoundPips(v: real): real {
    Round(v * 1_000_000.0) as real / 1_000_000.0
  }

  datatype RateDoc = RateDoc(mid: real, bid: real, ask: real, effective: real, spreadBps: int)

  const UNITY := RateDoc(1.0, 1.0, 1.0, 1.0, 0)

  /** The mid rate marked up or down. */
  function Marked(midRate: real, factor: real): real {
    midRate * factor
  }

  function ComputeRateDoc(base: string, target: string, midRate: real, spreadBps: int): RateDoc {
    if base == target then UNITY
    else
      var spread := spreadBps as real / 10000.0;
      var mid := RoundPips(midRate);
      var effective := RoundPips(Marked(midRate, 1.0 - spread));
      RateDoc(mid, RoundPips(Marked(midRate, 1.0 - spread / 2.0)), RoundPips(Marked(midRate, 1.0 + spread / 2.0)),
              if effective <= 0.0 then mid else effective, spreadBps)
  }

  lemma RoundIsMonotone(x: real, y: real)
    requires x <= y
    ensures Round(x) <= Round(y)
  {
  }

  lemma RoundPipsIsMonotone(x: real, y: real)
    requires x <= y
    ensures RoundPips(x) <= RoundPips(y)
    ensures x >= 0.0 ==> RoundPips(x) >= 0.0
  {
    RoundIsMonotone(x * 1_000_000.0, y * 1_000_000.0);
  }

  lemma RoundPipsAccuracy(x: real)
    ensures x - 0.000_000_5 <= RoundPips(x) <= x + 0.000_000_5
  {
    var n := Round(x * 1_000_000.0);
    assert n as real - 0.5 <= x * 1_000_000.0 <= n as real + 0.5;
  }

  lemma Scales(mid: real, low: real, high: real)
    requires mid >= 0.0 && low <= high
    ensures mid * low <= mid * high
  {
  }

  ghost predicate Ordered(d: RateDoc) {
    && 0.0 <= d.effective <= d.mid
    && d.bid <= d.mid <= d.ask
  }

  /** For every pair, mid rate and spread the published effective rate is not above the published mid rate, which lies
      between bid and ask and within half a pip of the rate given. */
  lemma PublishedRatesAreOrdered(base: string, target: string, midRate: real, spreadBps: int)
    requires midRate > 0.0 && spreadBps >= 0
    ensures var d := ComputeRateDoc(base, target, midRate, spreadBps);
            && Ordered(d)
            && (base != target ==> midRate - 0.000_000_5 <= d.mid <= midRate + 0.000_000_5)
  {
    var s := spreadBps as real / 10000.0;
    RoundPipsAccuracy(midRate);
    MarkedRate(midRate, 1.0 - s);
    MarkedRate(midRate, 1.0 - s / 2.0);
    MarkedRate(midRate, 1.0 + s / 2.0);
    hide RoundPips, Marked;
  }

  lemma MarkedRate(midRate: real, factor: real)
    requires midRate > 0.0
    ensures factor <= 1.0 ==> RoundPips(Marked(midRate, factor)) <= RoundPips(midRate)
    ensures factor >= 1.0 ==> RoundPips(Marked(midRate, factor)) >= RoundPips(midRate)
    ensures RoundPips(midRate) >= 0.0
  {
    hide RoundPips;
    if factor <= 1.0 {
      Scales(midRate, factor, 1.0);
      RoundPipsIsMonotone(Marked(midRate, factor), midRate);
    }
    if factor >= 1.0 {
      Scales(midRate, 1.0, factor);
      RoundPipsIsMonotone(midRate, Marked(midRate, factor));
    }
    RoundPipsIsMonotone(midRate, midRate);
  }

  // ---- the rate book ----

  datatype Book =
      Book(usdRates: map<string, real>, overrides: map<(string, string), RateDoc>, spreadBps: int, feeBps: int)

  datatype BookOp =
    | SetPair(base: string, target: string, midRate: real, spreadBps: int)
    | Sync(rates: seq<(string, real)>)

  const DEFAULT_SPREAD_BPS := 25

  function NewBook(baseline: map<string, real>, spreadBps: int, feeBps: int): Book {
    Book(baseline, map[], if spreadBps < 0 then DEFAULT_SPREAD_BPS else spreadBps, if feeBps < 0 then 0 else feeBps)
  }

  function Synced(usd: map<string, real>, rates: seq<(string, real)>): map<string, real>
    decreases |rates|
  {
    if rates == [] then usd["USD" := 1.0]
    else
      var code, rate := Normalize(rates[0].0), rates[0].1;
      Synced(if IsValidCurrency(code) && rate > 0.0 then usd[code := rate] else usd, rates[1..])
  }

  function Update(b: Book, op: BookOp): Book {
    match op
    case SetPair(base0, target0, midRate, spreadBps) =>
      var base, target := Normalize(base0), Normalize(target0);
      if !IsValidCurrency(base) || !IsValidCurrency(target) || midRate <= 0.0 || spreadBps < 0 || spreadBps >= 5000
        then b
      else
        b.(overrides := b.overrides[(base, target) := ComputeRateDoc(base, target, midRate, spreadBps)],
        usdRates := if base == "USD" then b.usdRates[target := midRate]
                    else if target == "USD" then b.usdRates[base := 1.0 / midRate]
                    else b.usdRates)
    case Sync(rates) => b.(usdRates := Synced(b.usdRates, rates))
  }

  function Run(b: Book, ops: seq<BookOp>): Book {
    if ops == [] then b else Update(Run(b, ops[..|ops| - 1]), ops[|ops| - 1])
  }

  function UsdRate(b: Book, code: string): real {
    if code in b.usdRates then b.usdRates[code] else 0.0
  }

  /** An override, or triangulation through the dollar. */
  function GetRate(b: Book, base0: string, target0: string): Option<RateDoc> {
    var base, target := Normalize(base0), Normalize(target0);
    if !IsValidCurrency(base) || !IsValidCurrency(target) then None
    else if (base, target) in b.overrides then Some(b.overrides[(base, target)])
    else if UsdRate(b, base) <= 0.0 || UsdRate(b, target) <= 0.0 then None
    else Some(ComputeRateDoc(base, target, UsdRate(b, target) / UsdRate(b, base), b.spreadBps))
  }

  ghost predicate Sound(b: Book) {
    && b.spreadBps >= 0 && b.feeBps >= 0
    && (forall k :: k in b.overrides ==> Ordered(b.overrides[k]) && (k.0 == k.1 ==> b.overrides[k] == UNITY))
  }

  lemma {:induction false} EveryBookIsSound(baseline: map<string, real>, spreadBps: int, feeBps: int, ops: seq<BookOp>)
    ensures Sound(Run(NewBook(baseline, spreadBps, feeBps), ops))
  {
    if ops != [] {
      EveryBookIsSound(baseline, spreadBps, feeBps, ops[..|ops| - 1]);
      var op := ops[|ops| - 1];
      if op.SetPair? && op.midRate > 0.0 && op.spreadBps >= 0 {
        PublishedRatesAreOrdered(Normalize(op.base), Normalize(op.target), op.midRate, op.spreadBps);
      }
    }
  }

  /** Whatever was synchronised or overridden before, no published effective rate is above its mid rate, and a currency
      is worth itself. */
  lemma EveryPublishedRateIsOrdered(baseline: map<string, real>, spreadBps: int, feeBps: int, ops: seq<BookOp>,
                                    base: string, target: string)
    ensures var r := GetRate(Run(NewBook(baseline, spreadBps, feeBps), ops), base, target);
            r.Some? ==> Ordered(r.value) && (Normalize(base) == Normalize(target) ==> r.value == UNITY)
  {
    var b := Run(NewBook(baseline, spreadBps, feeBps), ops);
    EveryBookIsSound(baseline, spreadBps, feeBps, ops);
    SoundBookPublishesOrdered(b, base, target);
  }

  lemma SoundBookPublishesOrdered(b: Book, base: string, target: string)
    requires Sound(b)
    ensures var r := GetRate(b, base, target);
            r.Some? ==> Ordered(r.value) && (Normalize(base) == Normalize(target) ==> r.value == UNITY)
  {
    var x, y := UsdRate(b, Normalize(target)), UsdRate(b, Normalize(base));
    if x > 0.0 && y > 0.0 {
      assert x / y > 0.0;
      PublishedRatesAreOrdered(Normalize(base), Normalize(target), x / y, b.spreadBps);
    }
  }

  // ---- quotes ----

  datatype Quoted = Quoted(rate: RateDoc, sourceAmount: int, targetAmount: int, feeAmount: int)

  function Fee(b: Book, base: string, target: string, amount: int): int {
    if b.feeBps > 0 && base != target then RoundToEven(amount as real * b.feeBps as real / 10000.0) else 0
  }

  /** A fee that would take everything is waived. */
  function ChargedFee(b: Book, base: string, target: string, amount: int): int {
    if amount - Fee(b, base, target, amount) <= 0 then 0 else Fee(b, base, target, amount)
  }

  function CreateQuote(b: Book, base0: string, target0: string, amount: int): Option<Quoted> {
    var base, target := Normalize(base0), Normalize(target0);
    if !ValidateAmount(amount, base) || !IsValidCurrency(target) then None
    else
      match GetRate(b, base, target)
      case None => None
      case Some(rate) =>
        var fee := ChargedFee(b, base, target, amount);
        Some(Quoted(rate, amount, ConvertUnitsScaleBankers(amount - fee, base, target, rate.effective), fee))
  }

  lemma ChargedFeeIsProper(b: Book, base: string, target: string, amount: int)
    requires b.feeBps >= 0 && amount > 0
    ensures 0 <= ChargedFee(b, base, target, amount) < amount
    ensures base == target ==> ChargedFee(b, base, target, amount) == 0
  {
    if b.feeBps > 0 {
      var x := amount as real * b.feeBps as real / 10000.0;
      assert x >= 0.0 by {
        Scales(amount as real, 0.0, b.feeBps as real);
      }
      assert RoundToEven(x) >= 0;
    }
  }

  /** A smaller amount at a smaller rate is worth no more. */
  lemma ValueIsMonotone(units: int, more: int, base: string, target: string, rate: real, mid: real)
    requires 0 <= units <= more && 0.0 <= rate <= mid
    ensures ExactValue(units, base, target, rate) <= ExactValue(more, base, target, mid)
  {
    hide ScaleFactor;
    ScaleFactorPositive(base, target);
    ProductsGrow(units as real, more as real, rate, mid);
    ProductsGrow(units as real * rate, more as real * mid, ScaleFactor(base, target), ScaleFactor(base, target));
  }

  lemma ProductsGrow(x: real, y: real, p: real, q: real)
    requires 0.0 <= x <= y && 0.0 <= p <= q
    ensures 0.0 <= x * p <= y * q
  {
    Scales(x, 0.0, p);
    Scales(p, x, y);
    Scales(y, p, q);
  }

  lemma ScaleFactorPositive(base: string, target: string)
    ensures ScaleFactor(base, target) > 0.0
  {
    hide ScaleOf;
    match (CurrencyScale(base), CurrencyScale(target))
    case (Some(x), Some(y)) => Pow10Positive(y - x);
    case _ =>
  }

  /** Of the value at the mid rate, before fees. */
  function MidValue(q: Quoted, base: string, target: string): real {
    ExactValue(q.sourceAmount, Normalize(base), Normalize(target), q.rate.mid)
  }

  /** A quote exceeds the mid-rate value of the whole amount by more than half a minor unit exactly when that value is
      below half a unit and the one-unit floor applies. The fee never takes the whole amount. */
  lemma QuoteIsNotAboveMid(b: Book, base: string, target: string, amount: int)
    requires Sound(b) && CreateQuote(b, base, target, amount).Some?
    ensures var q := CreateQuote(b, base, target, amount).value;
            && q.sourceAmount == amount && 0 <= q.feeAmount < amount
            && (q.targetAmount as real > MidValue(q, base, target) + 0.5
                <==> q.rate.effective > 0.0 && MidValue(q, base, target) < 0.5)
            && (q.targetAmount as real > MidValue(q, base, target) + 0.5 ==> q.targetAmount == 1)
  {
    hide ScaleOf, ExactValue, ScaleFactor;
    var q := CreateQuote(b, base, target, amount).value;
    var from, to := Normalize(base), Normalize(target);
    NormalizeIdempotent(base);
    NormalizeIdempotent(target);
    ChargedFeeIsProper(b, from, to, amount);
    SoundBookPublishesOrdered(b, from, to);
    ValueIsMonotone(amount - q.feeAmount, amount, from, to, q.rate.effective, q.rate.mid);
    ValueIsNonNegative(amount, from, to, q.rate.mid);
    if q.rate.effective > 0.0 {
      ConversionAccuracy(amount - q.feeAmount, from, to, q.rate.effective);
    }
  }

  lemma ValueIsNonNegative(units: int, base: string, target: string, rate: real)
    requires units >= 0 && rate >= 0.0
    ensures ExactValue(units, base, target, rate) >= 0.0
  {
    ValueIsMonotone(0, units, base, target, 0.0, rate);
    assert ExactValue(0, base, target, 0.0) == 0.0;
  }

  /** Exchanging a currency for itself returns the amount, free of charge. */
  lemma SameCurrencyQuoteIsIdentity(b: Book, base: string, target: string, amount: int)
    requires Sound(b) && Normalize(base) == Normalize(target) && CreateQuote(b, base, target, amount).Some?
    ensures CreateQuote(b, base, target, amount) == Some(Quoted(UNITY, amount, amount, 0))
  {
    hide ScaleOf;
    var cur := Normalize(base);
    NormalizeIdempotent(base);
    ChargedFeeIsProper(b, cur, cur, amount);
    SoundBookPublishesOrdered(b, cur, cur);
    IdentityConversion(amount, cur);
  }
}
