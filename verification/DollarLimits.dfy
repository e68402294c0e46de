/** KYC limits in dollars (cmd/wallet-service/compliance.go:17-205). */
module DollarLimits {
  import opened Hashing
  import opened Currency
  import opened Compliance
  import opened Wallets
  import opened Velocity

  // ---- what an amount is worth ----

  /** The value in dollar cents of an amount in minor units: rate times a hundred cents, over the minor units of one
      unit of the currency. Dollars count as they are, and so do the minor units of every currency without a rate. */
  function Cents(amount: int, code: string): real {
    var a := amount as real;
    if code == "EUR" then a * 1.0870 * 100.0 / 100.0
    else if code == "GBP" then a * 1.2820 * 100.0 / 100.0
    else if code == "CHF" then a * 1.1210 * 100.0 / 100.0
    else if code == "CAD" then a * 0.7350 * 100.0 / 100.0
    else if code == "AUD" then a * 0.6550 * 100.0 / 100.0
    else if code == "SGD" then a * 0.7450 * 100.0 / 100.0
    else if code == "INR" then a * 0.0120 * 100.0 / 100.0
    else if code == "JPY" then a * 0.0064 * 100.0
    else if code == "BHD" then a * 2.6525 * 100.0 / 1000.0
    else a
  }

  predicate HasRate(code: string) {
    code in ["EUR", "GBP", "CHF", "CAD", "AUD", "SGD", "INR", "JPY", "BHD"]
  }

  lemma RatesAndScales(code: string)
    ensures HasRate(code) <==> RateToUsd(code).Some?
    ensures HasRate(code) ==> IsCode(code) && RateToUsd(code).value > 0.0
    ensures code == "JPY" ==> ScaleOf(code) == Some(0)
    ensures code == "BHD" ==> ScaleOf(code) == Some(3)
    ensures HasRate(code) && code != "JPY" && code != "BHD" ==> ScaleOf(code) == Some(2)
  {
  }

  lemma PowersOfTen()
    ensures Pow10(0) == 1.0 && Pow10(2) == 100.0 && Pow10(-1) == 0.1
  {
    assert Pow10(1) == 10.0;
  }

  /** From minor units of a currency with a rate to cents. */
  lemma ScaleToCents(code: string)
    requires HasRate(code)
    ensures ScaleFactor(code, "USD") == if code == "JPY" then 100.0 else if code == "BHD" then 0.1 else 1.0
  {
    RatesAndScales(code);
    CodeIsNormal(code);
    CodeIsNormal("USD");
    PowersOfTen();
    assert ScaleOf("USD") == Some(2);
    hide Normalize, Pow10, ScaleOf, RateToUsd;
  }

  lemma CentsAtRate(amount: int, code: string)
    requires HasRate(code)
    ensures Cents(amount, code)
            == amount as real * RateToUsd(code).value
               * if code == "JPY" then 100.0 else if code == "BHD" then 0.1 else 1.0
  {
  }

  /** The exact value that the conversion rounds. */
  lemma ExactCents(amount: int, code: string)
    requires HasRate(code)
    ensures ExactValue(amount, code, "USD", RateToUsd(code).value) == Cents(amount, code)
  {
    RatesAndScales(code);
    hide HasRate, RateToUsd, Cents, ScaleFactor;
    ScaleToCents(code);
    CentsAtRate(amount, code);
  }

  /** An amount is recorded at its dollar value, to half a cent; a positive amount at one cent at least. Without a
      rate it is recorded as it is. */
  lemma RecordedAtItsValue(amount: int, currency: string)
    ensures var code, cents := Normalize(currency), UsdUnits(amount, currency);
            && (!HasRate(code) ==> cents == amount)
            && (HasRate(code) && amount <= 0 ==> cents == 0)
            && (HasRate(code) && amount > 0 ==>
                  && cents >= 1 && Cents(amount, code) <= cents as real + 0.5
                  && (cents as real - 0.5 <= Cents(amount, code) || (cents == 1 && Cents(amount, code) <= 0.5)))
  {
    var code := Normalize(currency);
    RatesAndScales(code);
    if HasRate(code) {
      ExactCents(amount, code);
      hide Cents, ExactValue, ScaleOf, RateToUsd, HasRate, Normalize;
      if amount > 0 {
        ConversionAccuracy(amount, code, "USD", RateToUsd(code).value);
      }
    }
  }

  // ---- the limits of the tiers, in cents ----

  function SingleLimit(tier: string): int {
    if tier == "TIER_2" then 10_000 * 100 else if tier == "TIER_3" then 100_000 * 100 else 1_000 * 100
  }

  function DailyLimit(tier: string): int {
    if tier == "TIER_2" then 50_000 * 100 else if tier == "TIER_3" then 500_000 * 100 else 5_000 * 100
  }

  function HourlyLimit(tier: string): nat {
    if tier == "TIER_2" then 50 else if tier == "TIER_3" then 200 else 10
  }

  function InWindow(r: VelocityRecord, walletId: string, from: int): bool {
    r.walletId == walletId && r.createdAt >= from
  }

  /** Records of a wallet from a time on. */
  function Since(records: seq<VelocityRecord>, walletId: string, from: int): seq<VelocityRecord> {
    if records == [] then []
    else
      var front, r := Since(records[..|records| - 1], walletId, from), records[|records| - 1];
      if InWindow(r, walletId, from) then front + [r] else front
  }

  function SumOfCents(records: seq<VelocityRecord>): int {
    if records == [] then 0 else SumOfCents(records[..|records| - 1]) + records[|records| - 1].usdUnits
  }

  lemma {:induction false} WindowIsSum(records: seq<VelocityRecord>, w: string, from: int)
    ensures Volume(records, w, from) == SumOfCents(Since(records, w, from))
            && Count(records, w, from) == |Since(records, w, from)|
  {
    if records != [] {
      WindowIsSum(records[..|records| - 1], w, from);
    }
  }

  /** The check passes exactly if the payment is within the single limit, fewer than the hourly number of records are an
      hour old or less, and the records of a day and the payment are within the daily limit. */
  lemma LimitsInDollars(records: seq<VelocityRecord>, w: string, tier: string, usd: int, now: int)
    ensures WithinLimits(records, w, tier, usd, now) <==>
              && usd <= SingleLimit(tier)
              && |Since(records, w, now - 3_600_000_000_000)| < HourlyLimit(tier)
              && SumOfCents(Since(records, w, now - 24 * 3_600_000_000_000)) + usd <= DailyLimit(tier)
  {
    WindowIsSum(records, w, now - HOUR);
    WindowIsSum(records, w, now - DAY);
  }

  /** A transfer is refused if it is worth more than the single limit by over half a cent, whatever its currency. */
  lemma OverLimitIsRefused(db: Db, op: Op)
    requires op.Transfer? && op.source in db.wallets
    requires Cents(op.units, Normalize(op.currency)) > SingleLimit(db.wallets[op.source].kycTier) as real + 0.5
    ensures Apply(db, op) == db
  {
    var tier, usd := db.wallets[op.source].kycTier, UsdUnits(op.units, op.currency);
    RecordedAtItsValue(op.units, op.currency);
    LimitsInDollars(db.velocity, op.source, tier, usd, op.checkedAt);
    NoRateIsAsIs(op.units, Normalize(op.currency));
    NothingIsWorthNothing(op.units, Normalize(op.currency));
    hide Cents, Normalize, UsdUnits, WithinLimits, HasRate;
    assert !TransferAdmitted(db, op);
  }

  lemma NoRateIsAsIs(amount: int, code: string)
    ensures !HasRate(code) ==> Cents(amount, code) == amount as real
  {
  }

  lemma NothingIsWorthNothing(amount: int, code: string)
    ensures amount <= 0 ==> Cents(amount, code) <= 0.0
  {
  }

  // ---- windows of whole runs ----

  /** Every record holds the value of its own amount. */
  ghost predicate Valued(r: VelocityRecord) {
    r.amount >= 0 && Cents(r.amount, r.currency) <= r.usdUnits as real + 0.5
  }

  ghost predicate AllValued(spends: seq<Spend>) {
    forall i :: 0 <= i < |spends| ==> Valued(spends[i].record)
  }

  lemma StepKeepsValued(db: Db, op: Op)
    requires AllValued(db.spends)
    ensures AllValued(Apply(db, op).spends)
  {
    var db' := Apply(db, op);
    if MoveOf(db, op).Some? && MoveOf(db, op).value.spend.Some? {
      SpendIsValued(db, op);
      hide Valued;
    }
  }

  lemma SpendIsValued(db: Db, op: Op)
    requires MoveOf(db, op).Some? && MoveOf(db, op).value.spend.Some?
    ensures Valued(MoveOf(db, op).value.spend.value.record)
  {
    var r := MoveOf(db, op).value.spend.value.record;
    var c := if op.Transfer? then op.currency else Normalize(op.currency);
    assert op.Transfer? || op.Exchange? || op.Withdraw?;
    assert r.amount == op.units >= 0 && r.currency == Normalize(c) && r.usdUnits == UsdUnits(op.units, c) by {
      hide UsdUnits, Normalize, ScaleOf;
    }
    hide MoveOf, UsdUnits, Normalize, HasRate;
    RecordedAtItsValue(op.units, c);
    NoRateIsAsIs(op.units, Normalize(c));
    NothingIsWorthNothing(op.units, Normalize(c));
  }

  lemma {:induction false} EveryRecordIsValued(ops: seq<Op>)
    ensures AllValued(Run(EMPTY_DB, ops).spends)
  {
    hide Apply;
    if ops != [] {
      EveryRecordIsValued(ops[..|ops| - 1]);
      StepKeepsValued(Run(EMPTY_DB, ops[..|ops| - 1]), ops[|ops| - 1]);
    }
  }

  /** The dollar value of the amounts of a wallet in a window, and how many there are. */
  function CentsInside(records: seq<VelocityRecord>, w: string, from: int, to: int): real {
    if records == [] then 0.0
    else
      var last := records[|records| - 1];
      CentsInside(records[..|records| - 1], w, from, to)
      + if Inside(last, w, from, to) then Cents(last.amount, last.currency) else 0.0
  }

  function CountInside(records: seq<VelocityRecord>, w: string, from: int, to: int): nat {
    if records == [] then 0
    else
      CountInside(records[..|records| - 1], w, from, to) + if Inside(records[|records| - 1], w, from, to) then 1 else 0
  }

  lemma {:induction false} ValueOfVolume(records: seq<VelocityRecord>, w: string, from: int, to: int)
    requires forall i :: 0 <= i < |records| ==> Valued(records[i])
    ensures CentsInside(records, w, from, to)
            <= VolumeInside(records, w, from, to) as real + 0.5 * CountInside(records, w, from, to) as real
  {
    hide Cents, Inside;
    if records != [] {
      ValueOfVolume(records[..|records| - 1], w, from, to);
      assert Valued(records[|records| - 1]);
    }
  }

  /** In dollars: any day whose last committed record is a transfer's holds payments worth at most the tier's daily
      limit, plus half a cent for each. */
  lemma EveryDayInDollars(ops: seq<Op>, w: string, end: int, i: nat)
    requires Traffic(SLACK, ops)
    requires var spends := Run(EMPTY_DB, ops).spends;
             && i < |spends| && spends[i].checked && Inside(spends[i].record, w, end - DAY, end)
             && forall k :: i < k < |spends| ==> !Inside(spends[k].record, w, end - DAY, end)
    ensures var spends := Run(EMPTY_DB, ops).spends;
            CentsInside(Records(spends), w, end - DAY, end)
            <= DailyLimit(spends[i].tier) as real + 0.5 * CountInside(Records(spends), w, end - DAY, end) as real
  {
    EveryDayHolds(ops, w, end, i);
    EveryRecordIsValued(ops);
    hide Run, Valued, Traffic, Inside;
    var spends := Run(EMPTY_DB, ops).spends;
    forall k | 0 <= k < |Records(spends)| ensures Valued(Records(spends)[k]) {
      assert Valued(spends[k].record);
    }
    ValueOfVolume(Records(spends), w, end - DAY, end);
  }
}
