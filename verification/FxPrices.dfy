/** Published rates and quotes against the dollar rates and the overrides they come from
    (cmd/fx-service/engine.go:130-156, 238-372, 404-443, pkg/db/currency.go:40-56, 169-186). */
module FxPrices {
  import opened Hashing
  import opened Currency
  import opened FxRates

  const HALF_PIP: real := 0.000_000_5

  // ---- one pair ----

  /** Each published rate of a pair is its own share of the given rate, to half a pip: bid and ask half the spread away
      from mid, effective the whole spread below; where that rounds to nothing, effective is mid. */
  ghost predicate Published(d: RateDoc, rate: real, spreadBps: int) {
    var spread := spreadBps as real / 10_000.0;
    SharesOf(d, rate, spread) && d.effective >= d.mid - d.mid * spread - 2.0 * HALF_PIP
  }

  predicate SharesOf(d: RateDoc, rate: real, spread: real) {
    && Near(d.mid, rate)
    && Near(d.bid, rate - rate * spread / 2.0)
    && Near(d.ask, rate + rate * spread / 2.0)
    && (Near(d.effective, rate - rate * spread) || (d.effective == d.mid && rate - rate * spread <= HALF_PIP))
  }

  predicate Near(x: real, y: real) {
    y - HALF_PIP <= x <= y + HALF_PIP
  }

  lemma PairIsPublished(base: string, target: string, rate: real, spreadBps: int)
    requires base != target && rate > 0.0 && spreadBps >= 0
    ensures Published(ComputeRateDoc(base, target, rate, spreadBps), rate, spreadBps)
  {
    hide ComputeRateDoc, SharesOf;
    var s := spreadBps as real / 10_000.0;
    PublishedRatesAreOrdered(base, target, rate, spreadBps);
    SharesAreNear(base, target, rate, spreadBps, s);
    EffectiveFloor(ComputeRateDoc(base, target, rate, spreadBps), rate, s);
  }

  lemma SharesAreNear(base: string, target: string, rate: real, spreadBps: int, s: real)
    requires base != target && s == spreadBps as real / 10_000.0
    ensures SharesOf(ComputeRateDoc(base, target, rate, spreadBps), rate, s)
  {
    hide RoundPips, Marked;
    Shares(rate, s);
    RoundPipsAccuracy(rate);
    RoundPipsAccuracy(Marked(rate, 1.0 - s));
    RoundPipsAccuracy(Marked(rate, 1.0 - s / 2.0));
    RoundPipsAccuracy(Marked(rate, 1.0 + s / 2.0));
  }

  lemma EffectiveFloor(d: RateDoc, rate: real, s: real)
    requires SharesOf(d, rate, s) && s >= 0.0 && d.mid >= 0.0 && d.effective >= 0.0
    ensures d.effective >= d.mid - d.mid * s - 2.0 * HALF_PIP
  {
    ShareOfMid(d.mid, rate, s);
    Scales(d.mid, 0.0, s);
  }

  lemma Shares(rate: real, s: real)
    ensures Marked(rate, 1.0 - s) == rate - rate * s
    ensures Marked(rate, 1.0 - s / 2.0) == rate - rate * s / 2.0
    ensures Marked(rate, 1.0 + s / 2.0) == rate + rate * s / 2.0
  {
    assert rate * (s / 2.0) == rate * s / 2.0;
  }

  lemma ShareOfMid(mid: real, rate: real, s: real)
    requires Near(mid, rate) && s >= 0.0 && mid >= 0.0
    ensures mid - mid * s <= rate - rate * s + HALF_PIP || mid - mid * s <= 0.0
  {
    if s <= 1.0 {
      ShareOfMore(mid, rate, s, HALF_PIP);
    } else {
      Scales(mid, 1.0, s);
    }
  }

  lemma ShareOfMore(mid: real, rate: real, s: real, more: real)
    requires mid <= rate + more && 0.0 <= s <= 1.0 && more >= 0.0
    ensures mid - mid * s <= rate - rate * s + more
  {
    var rest, ofMid, ofRate, ofMore := rate + more - mid, mid * s, rate * s, more * s;
    Scales(rest, s, 1.0);
    Scales(more, 0.0, s);
    assert rest * s == ofRate + ofMore - ofMid;
    assert rest * 1.0 == rest;
    assert ofMore >= 0.0;
    assert ofRate + ofMore - ofMid <= rate + more - mid;
  }

  // ---- triangulation ----

  /** The published mid of a base worth x to the dollar in a target worth y to the dollar. */
  ghost predicate IsCrossRate(d: RateDoc, x: real, y: real, spreadBps: int)
    requires x > 0.0
  {
    && (d.mid - HALF_PIP) * x <= y <= (d.mid + HALF_PIP) * x
    && Published(d, y / x, spreadBps)
  }

  /** Without an override the mid rate, times the dollar rate of the base, is the dollar rate of the target: how many
      of the target one dollar buys over how many of the base it buys. */
  lemma MidIsTheCrossRate(b: Book, base: string, target: string, x: real, y: real)
    requires Sound(b) && IsCode(base) && IsCode(target) && base != target && (base, target) !in b.overrides
    requires base in b.usdRates && b.usdRates[base] == x > 0.0 && target in b.usdRates && b.usdRates[target] == y > 0.0
    ensures GetRate(b, base, target).Some?
    ensures IsCrossRate(GetRate(b, base, target).value, x, y, b.spreadBps)
  {
    CrossRate(b, base, target, x, y);
    SoundSpread(b);
    hide GetRate, ComputeRateDoc, IsCode, IsCrossRate, Sound;
    CrossIsPublished(base, target, x, y, b.spreadBps);
  }

  lemma CrossIsPublished(base: string, target: string, x: real, y: real, spreadBps: int)
    requires base != target && x > 0.0 && y > 0.0 && spreadBps >= 0
    ensures IsCrossRate(ComputeRateDoc(base, target, y / x, spreadBps), x, y, spreadBps)
  {
    hide ComputeRateDoc, Published, Near;
    var rate := y / x;
    assert rate > 0.0;
    PairIsPublished(base, target, rate, spreadBps);
    var d := ComputeRateDoc(base, target, rate, spreadBps);
    MidIsNear(d, rate, spreadBps);
    CrossTimesBase(d.mid, x, y);
  }

  lemma SoundSpread(b: Book)
    requires Sound(b)
    ensures b.spreadBps >= 0
  {
  }

  lemma CrossRate(b: Book, base: string, target: string, x: real, y: real)
    requires IsCode(base) && IsCode(target) && (base, target) !in b.overrides && x > 0.0 && y > 0.0
    requires base in b.usdRates && target in b.usdRates && b.usdRates[base] == x && b.usdRates[target] == y
    ensures GetRate(b, base, target) == Some(ComputeRateDoc(base, target, y / x, b.spreadBps))
  {
    CodeIsNormal(base);
    CodeIsNormal(target);
    hide ComputeRateDoc, Normalize, ScaleOf;
  }

  lemma MidIsNear(d: RateDoc, rate: real, spreadBps: int)
    requires Published(d, rate, spreadBps)
    ensures Near(d.mid, rate)
  {
  }

  lemma CrossTimesBase(mid: real, x: real, y: real)
    requires x > 0.0 && Near(mid, y / x)
    ensures (mid - HALF_PIP) * x <= y <= (mid + HALF_PIP) * x
  {
    var q := y / x;
    assert q * x == y;
    Scales(x, mid - HALF_PIP, q);
    Scales(x, q, mid + HALF_PIP);
  }

  // ---- synchronisation and overrides ----

  /** The last positive rate that a feed gives for a code. */
  predicate LastRate(rates: seq<(string, real)>, i: nat, code: string, r: real) {
    && i < |rates| && Normalize(rates[i].0) == code && rates[i].1 == r > 0.0
    && forall k :: i < k < |rates| ==> Normalize(rates[k].0) != code || rates[k].1 <= 0.0
  }

  lemma {:induction false} SyncedRate(usd: map<string, real>, rates: seq<(string, real)>, i: nat, code: string, r: real)
    requires IsCode(code) && code != "USD" && LastRate(rates, i, code, r)
    ensures var after := Synced(usd, rates); code in after && after[code] == r
    decreases |rates|
  {
    CodeIsNormal(code);
    var c, rate := Normalize(rates[0].0), rates[0].1;
    var next := if IsValidCurrency(c) && rate > 0.0 then usd[c := rate] else usd;
    if i == 0 {
      UnsyncedRate(next, rates[1..], code);
    } else {
      assert LastRate(rates[1..], i - 1, code, r);
      SyncedRate(next, rates[1..], i - 1, code, r);
    }
  }

  lemma {:induction false} UnsyncedRate(usd: map<string, real>, rates: seq<(string, real)>, code: string)
    requires code != "USD" && forall k :: 0 <= k < |rates| ==> Normalize(rates[k].0) != code || rates[k].1 <= 0.0
    ensures var after := Synced(usd, rates);
            (code in after <==> code in usd) && (code in usd ==> after[code] == usd[code])
    decreases |rates|
  {
    if rates != [] {
      assert Normalize(rates[0].0) != code || rates[0].1 <= 0.0;
      var c, rate := Normalize(rates[0].0), rates[0].1;
      UnsyncedRate(if IsValidCurrency(c) && rate > 0.0 then usd[c := rate] else usd, rates[1..], code);
    }
  }

  lemma {:induction false} DollarIsOne(usd: map<string, real>, rates: seq<(string, real)>)
    ensures var after := Synced(usd, rates); "USD" in after && after["USD"] == 1.0
    decreases |rates|
  {
    if rates != [] {
      var c, rate := Normalize(rates[0].0), rates[0].1;
      DollarIsOne(if IsValidCurrency(c) && rate > 0.0 then usd[c := rate] else usd, rates[1..]);
    }
  }

  /** After a synchronisation with rate r for a code, one dollar is published at r of it, and one of it at 1 / r
      dollars. */
  lemma SynchronisedRates(b: Book, rates: seq<(string, real)>, i: nat, code: string, r: real)
    requires Sound(b) && IsCode(code) && code != "USD" && LastRate(rates, i, code, r)
    requires ("USD", code) !in b.overrides && (code, "USD") !in b.overrides
    ensures var after := Update(b, Sync(rates));
            && GetRate(after, "USD", code).Some? && Published(GetRate(after, "USD", code).value, r, b.spreadBps)
            && GetRate(after, code, "USD").Some? && Published(GetRate(after, code, "USD").value, 1.0 / r, b.spreadBps)
  {
    var after := Update(b, Sync(rates));
    SyncedRate(b.usdRates, rates, i, code, r);
    DollarIsOne(b.usdRates, rates);
    assert r / 1.0 == r;
    hide Published, GetRate, LastRate, Synced;
    MidIsTheCrossRate(after, "USD", code, 1.0, r);
    MidIsTheCrossRate(after, code, "USD", r, 1.0);
  }

  /** An override publishes the rate it was given, whatever is synchronised later, and against the dollar also sets the
      dollar rate of the other currency. */
  lemma OverriddenRate(b: Book, op: BookOp, rates: seq<(string, real)>)
    requires op.SetPair? && IsCode(Normalize(op.base)) && IsCode(Normalize(op.target))
             && Normalize(op.base) != Normalize(op.target)
    requires op.midRate > 0.0 && 0 <= op.spreadBps < 5000
    ensures var after := Update(b, op); var base, target := Normalize(op.base), Normalize(op.target);
            && GetRate(after, op.base, op.target).Some?
            && Published(GetRate(after, op.base, op.target).value, op.midRate, op.spreadBps)
            && GetRate(Update(after, Sync(rates)), op.base, op.target) == GetRate(after, op.base, op.target)
            && (base == "USD" ==> UsdRate(after, target) == op.midRate)
            && (base != "USD" && target == "USD" ==> UsdRate(after, base) == 1.0 / op.midRate)
            && (base != "USD" && target != "USD" ==> after.usdRates == b.usdRates)
  {
    var base, target := Normalize(op.base), Normalize(op.target);
    PairIsPublished(base, target, op.midRate, op.spreadBps);
    hide Published, ComputeRateDoc, Synced;
    ValidOverride(b, op);
    OverrideIsRead(Update(b, op), op.base, op.target);
    OverrideIsRead(Update(Update(b, op), Sync(rates)), op.base, op.target);
    hide Normalize, ScaleOf, GetRate;
  }

  lemma ValidOverride(b: Book, op: BookOp)
    requires op.SetPair? && IsCode(Normalize(op.base)) && IsCode(Normalize(op.target))
    requires op.midRate > 0.0 && 0 <= op.spreadBps < 5000
    ensures var after := Update(b, op); var base, target := Normalize(op.base), Normalize(op.target);
            && after.overrides == b.overrides[(base, target) := ComputeRateDoc(base, target, op.midRate, op.spreadBps)]
            && after.usdRates == (if base == "USD" then b.usdRates[target := op.midRate]
                                  else if target == "USD" then b.usdRates[base := 1.0 / op.midRate]
                                  else b.usdRates)
  {
    CodeIsNormal(Normalize(op.base));
    CodeIsNormal(Normalize(op.target));
    hide Normalize, ScaleOf, ComputeRateDoc;
  }

  lemma OverrideIsRead(b: Book, base: string, target: string)
    requires IsCode(Normalize(base)) && IsCode(Normalize(target)) && (Normalize(base), Normalize(target)) in b.overrides
    ensures GetRate(b, base, target) == Some(b.overrides[(Normalize(base), Normalize(target))])
  {
    CodeIsNormal(Normalize(base));
    CodeIsNormal(Normalize(target));
    hide Normalize, ScaleOf;
  }

  /** An override that is not valid changes nothing. */
  lemma InvalidOverride(b: Book, op: BookOp)
    requires op.SetPair?
    requires !IsCode(Normalize(op.base)) || !IsCode(Normalize(op.target)) || op.midRate <= 0.0
             || !(0 <= op.spreadBps < 5000)
    ensures Update(b, op) == b
  {
    NormalizeIdempotent(op.base);
    NormalizeIdempotent(op.target);
    hide Normalize, ScaleOf, ComputeRateDoc;
  }

  // ---- amounts ----

  /** Minor units of one unit of a currency. */
  function MinorUnits(code: string): real {
    if code == "JPY" || code == "KRW" then 1.0
    else if code == "BHD" || code == "KWD" || code == "TND" then 1000.0
    else 100.0
  }

  lemma PowersOfTen()
    ensures Pow10(0) == 1.0 && Pow10(1) == 10.0 && Pow10(2) == 100.0 && Pow10(3) == 1000.0
    ensures Pow10(-1) == 0.1 && Pow10(-2) == 0.01 && Pow10(-3) == 0.001
  {
    assert Pow10(-1) == 0.1;
    assert Pow10(-2) == 0.01;
  }

  lemma MinorUnitsAreScales(code: string)
    requires IsCode(code)
    ensures ScaleOf(code).value in {0, 2, 3}
    ensures ScaleOf(code).value == 0 ==> MinorUnits(code) == 1.0
    ensures ScaleOf(code).value == 2 ==> MinorUnits(code) == 100.0
    ensures ScaleOf(code).value == 3 ==> MinorUnits(code) == 1000.0
  {
  }

  function Ratio(base: string, target: string): real {
    MinorUnits(target) / MinorUnits(base)
  }

  /** Converting minor units multiplies by the target's minor units and divides by the base's. */
  lemma ScaleIsARatio(base: string, target: string)
    requires IsCode(base) && IsCode(target)
    ensures ScaleFactor(base, target) == Ratio(base, target)
  {
    hide ScaleOf, MinorUnits, Pow10, ScaleFactor, Units;
    UnitsOfCode(base);
    UnitsOfCode(target);
    FactorIsPower(base, target);
    PowerRatio(ScaleOf(base).value, ScaleOf(target).value);
  }

  lemma UnitsOfCode(code: string)
    requires IsCode(code)
    ensures ScaleOf(code).value in {0, 2, 3} && MinorUnits(code) == Units(ScaleOf(code).value)
  {
    MinorUnitsAreScales(code);
    hide ScaleOf, MinorUnits;
  }

  lemma FactorIsPower(base: string, target: string)
    requires IsCode(base) && IsCode(target)
    ensures ScaleFactor(base, target) == Pow10(ScaleOf(target).value - ScaleOf(base).value)
  {
    CodeIsNormal(base);
    CodeIsNormal(target);
    hide ScaleOf, Normalize, Pow10;
  }

  function Units(scale: int): real {
    if scale == 0 then 1.0 else if scale == 2 then 100.0 else 1000.0
  }

  lemma PowerRatio(b: int, t: int)
    requires b in {0, 2, 3} && t in {0, 2, 3}
    ensures Pow10(t - b) == Units(t) / Units(b)
  {
    PowersOfTen();
    hide Pow10;
  }

  /** The value of an amount at a rate, in minor units of the target. */
  function Worth(amount: int, base: string, target: string, rate: real): real {
    amount as real * rate * Ratio(base, target)
  }

  /** A quote is worth what the published effective rate makes of the amount after the fee, to half a minor unit, and at
      least one; the fee is the configured share to half a minor unit, waived where it would take everything. */
  lemma QuoteIsTheWorth(b: Book, base: string, target: string, amount: int)
    requires Sound(b) && CreateQuote(b, base, target, amount).Some?
    ensures var q, from, to := CreateQuote(b, base, target, amount).value, Normalize(base), Normalize(target);
            var worth := Worth(amount - q.feeAmount, from, to, q.rate.effective);
            && Some(q.rate) == GetRate(b, base, target)
            && (q.rate.effective > 0.0 ==>
                  && worth <= q.targetAmount as real + 0.5
                  && (q.targetAmount as real - 0.5 <= worth || (q.targetAmount == 1 && worth <= 0.5)))
            && (q.rate.effective <= 0.0 ==> q.targetAmount == 0)
            && FeeIsFair(b, from, to, amount, q.feeAmount)
  {
    var from, to := Normalize(base), Normalize(target);
    QuoteParts(b, base, target, amount);
    hide CreateQuote, ScaleOf, Normalize, Fee, ChargedFee, GetRate, FeeIsFair;
    var q := CreateQuote(b, base, target, amount).value;
    FairFee(b, from, to, amount);
    WorthIsExact(amount - q.feeAmount, from, to, q.rate.effective);
    if q.rate.effective > 0.0 {
      ConversionAccuracy(amount - q.feeAmount, from, to, q.rate.effective);
    }
    hide Worth, ExactValue;
  }

  lemma QuoteParts(b: Book, base: string, target: string, amount: int)
    requires Sound(b) && CreateQuote(b, base, target, amount).Some?
    ensures var q, from, to := CreateQuote(b, base, target, amount).value, Normalize(base), Normalize(target);
            && IsCode(from) && IsCode(to) && amount > 0
            && q.feeAmount == ChargedFee(b, from, to, amount) && 0 <= q.feeAmount < amount
            && q.targetAmount == ConvertUnitsScaleBankers(amount - q.feeAmount, from, to, q.rate.effective)
            && Some(q.rate) == GetRate(b, base, target)
  {
    var from, to := Normalize(base), Normalize(target);
    NormalizeIdempotent(base);
    NormalizeIdempotent(target);
    hide ScaleOf, Normalize, Fee, ConvertUnitsScaleBankers;
    assert amount > 0;
    ChargedFeeIsProper(b, from, to, amount);
    hide ChargedFee;
  }

  lemma WorthIsExact(units: int, from: string, to: string, rate: real)
    requires IsCode(from) && IsCode(to)
    ensures Worth(units, from, to, rate) == ExactValue(units, from, to, rate)
  {
    hide ScaleFactor, Ratio, ScaleOf, IsCode;
    ScaleIsARatio(from, to);
    var f := ScaleFactor(from, to);
    WorthBy(units, from, to, rate, f);
    ValueBy(units, from, to, rate, f);
    hide Worth, ExactValue;
  }

  lemma WorthBy(units: int, from: string, to: string, rate: real, f: real)
    requires f == Ratio(from, to)
    ensures Worth(units, from, to, rate) == units as real * rate * f
  {
  }

  lemma ValueBy(units: int, from: string, to: string, rate: real, f: real)
    requires f == ScaleFactor(from, to)
    ensures ExactValue(units, from, to, rate) == units as real * rate * f
  {
  }

  ghost predicate FeeIsFair(b: Book, from: string, to: string, amount: int, fee: int) {
    var share := amount as real * b.feeBps as real / 10_000.0;
    if from == to || b.feeBps <= 0 then fee == 0
    else (share - 0.5 <= fee as real <= share + 0.5) || (fee == 0 && share >= amount as real - 0.5)
  }

  lemma FairFee(b: Book, from: string, to: string, amount: int)
    requires amount > 0
    ensures FeeIsFair(b, from, to, amount, ChargedFee(b, from, to, amount))
  {
  }
}
