/** KYC velocity limits (cmd/wallet-service/compliance.go:17-205). Times are nanoseconds. */
module Compliance {
  import opened Hashing
  import opened Currency

  const HOUR: int := 3_600_000_000_000
  const DAY: int := 24 * HOUR
  const VELOCITY_TTL: int := 3 * DAY

  datatype TierConfig = TierConfig(singleTxnLimit: int, dailyRollingLimit: int, hourlyRateLimit: int)

  /** Unknown and empty tiers are TIER_1. */
  function GetTierConfig(tier: string): TierConfig {
    if tier == "TIER_3" then TierConfig(10_000_000, 50_000_000, 200)
    else if tier == "TIER_2" then TierConfig(1_000_000, 5_000_000, 50)
    else TierConfig(100_000, 500_000, 10)
  }

  function RateToUsd(currency: string): Option<real> {
    if currency == "EUR" then Some(1.0870)
    else if currency == "GBP" then Some(1.2820)
    else if currency == "JPY" then Some(0.0064)
    else if currency == "CHF" then Some(1.1210)
    else if currency == "CAD" then Some(0.7350)
    else if currency == "AUD" then Some(0.6550)
    else if currency == "SGD" then Some(0.7450)
    else if currency == "INR" then Some(0.0120)
    else if currency == "BHD" then Some(2.6525)
    else None
  }

  function UsdUnits(amount: int, currency: string): int {
    var curr := Normalize(currency);
    match RateToUsd(curr)
    case None => amount
    case Some(rate) => ConvertUnitsScaleBankers(amount, curr, "USD", rate)
  }

  lemma UsdUnitsNonNegative(amount: int, currency: string)
    requires amount >= 0
    ensures UsdUnits(amount, currency) >= 0
  {
  }

  datatype VelocityRecord =
      VelocityRecord(walletId: string, amount: int, currency: string, usdUnits: int, createdAt: int)

  /** What RecordVelocityUsage writes. */
  function Recorded(walletId: string, amount: int, currency: string, at: int): VelocityRecord {
    VelocityRecord(walletId, amount, Normalize(currency), UsdUnits(amount, currency), at)
  }

  predicate Within(r: VelocityRecord, walletId: string, since: int) {
    r.walletId == walletId && r.createdAt >= since
  }

  /** The aggregation of GetWalletVelocityUsage: volume since a time ... */
  function Volume(records: seq<VelocityRecord>, walletId: string, since: int): int {
    if records == [] then 0
    else
      var last := records[|records| - 1];
      Volume(records[..|records| - 1], walletId, since) + if Within(last, walletId, since) then last.usdUnits else 0
  }

  /** ... and number of transactions since a time. */
  function Count(records: seq<VelocityRecord>, walletId: string, since: int): nat {
    if records == [] then 0
    else
      Count(records[..|records| - 1], walletId, since)
      + if Within(records[|records| - 1], walletId, since) then 1 else 0
  }

  /** CheckVelocityLimits passes. */
  predicate WithinLimits(records: seq<VelocityRecord>, walletId: string, tier: string, usd: int, now: int) {
    var cfg := GetTierConfig(tier);
    && usd <= cfg.singleTxnLimit
    && Count(records, walletId, now - HOUR) < cfg.hourlyRateLimit
    && Volume(records, walletId, now - DAY) + usd <= cfg.dailyRollingLimit
  }
}
