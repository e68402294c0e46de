/** Rolling KYC windows over whole runs. */
module Velocity {
  import opened Hashing
  import opened Compliance
  import opened Currency
  import opened Wallets

  function Records(spends: seq<Spend>): seq<VelocityRecord> {
    seq(|spends|, i requires 0 <= i < |spends| => spends[i].record)
  }

  // ---- what is asked of clocks ----

  /** By how much the life of a record exceeds the longest window. */
  const SLACK: int := VELOCITY_TTL - DAY

  /** A purge at this clock removes only records that no window from `since` on can see. */
  predicate PurgeSpares(op: Op, since: int) {
    op.ExpireVelocity? ==> op.now - VELOCITY_TTL <= since
  }

  /** Operations come in the order of their commits. Transactions may overlap and pods may disagree about the time: a
      transfer is only checked no later than it is recorded, and the purges before it ran on a clock at most `slack`
      ahead of its check. Exchanges and withdrawals are unrestricted. */
  ghost predicate Timely(slack: int, ops: seq<Op>, i: nat)
    requires i < |ops|
  {
    ops[i].Transfer? ==>
      && ops[i].checkedAt <= ops[i].recordedAt
      && forall j :: 0 <= j < i && ops[j].ExpireVelocity? ==> ops[j].now <= ops[i].checkedAt + slack
  }

  ghost predicate Traffic(slack: int, ops: seq<Op>) {
    forall i :: 0 <= i < |ops| ==> Timely(slack, ops, i)
  }

  // ---- windows ----

  /** Of all spends committed up to the i-th, those at most a day, or an hour, older than it. */
  ghost predicate WindowsHold(spends: seq<Spend>, i: nat)
    requires i < |spends|
  {
    var r, cfg, past := spends[i].record, GetTierConfig(spends[i].tier), Records(spends[..i + 1]);
    && Volume(past, r.walletId, r.createdAt - DAY) <= cfg.dailyRollingLimit
    && Count(past, r.walletId, r.createdAt - HOUR) <= cfg.hourlyRateLimit
  }

  ghost predicate CheckedWindowsHold(spends: seq<Spend>) {
    forall i :: 0 <= i < |spends| && spends[i].checked ==> WindowsHold(spends, i)
  }

  /** A window that every purge of the run spared. */
  ghost predicate Spared(ops: seq<Op>, since: int) {
    forall j :: 0 <= j < |ops| ==> PurgeSpares(ops[j], since)
  }

  ghost predicate SameAnswer(store: seq<VelocityRecord>, history: seq<VelocityRecord>, w: string, since: int) {
    Volume(store, w, since) == Volume(history, w, since) && Count(store, w, since) == Count(history, w, since)
  }

  /** Spared windows are answered as the full history would answer, and checked windows hold. */
  ghost predicate Inv(ops: seq<Op>) {
    var db := Run(EMPTY_DB, ops);
    && (forall w, t :: Spared(ops, t) ==> SameAnswer(db.velocity, Records(db.spends), w, t))
    && (forall i :: 0 <= i < |db.spends| ==> db.spends[i].record.usdUnits >= 0)
    && CheckedWindowsHold(db.spends)
  }

  lemma {:induction false} LaterWindowIsSmaller(records: seq<VelocityRecord>, w: string, early: int, late: int)
    requires early <= late && forall i :: 0 <= i < |records| ==> records[i].usdUnits >= 0
    ensures Volume(records, w, late) <= Volume(records, w, early) && Count(records, w, late) <= Count(records, w, early)
  {
    if records != [] {
      LaterWindowIsSmaller(records[..|records| - 1], w, early, late);
    }
  }

  /** Dropping a record older than a window does not change the window. */
  lemma {:induction false} OldRecordIsInvisible(records: seq<VelocityRecord>, i: nat, w: string, since: int)
    requires i < |records| && records[i].createdAt < since
    ensures SameAnswer(records[..i] + records[i + 1..], records, w, since)
  {
    var fewer := records[..i] + records[i + 1..];
    var front := records[..|records| - 1];
    if i == |records| - 1 {
      assert fewer == front;
    } else {
      OldRecordIsInvisible(front, i, w, since);
      assert fewer[..|fewer| - 1] == front[..i] + front[i + 1..];
      assert fewer[|fewer| - 1] == records[|records| - 1];
    }
  }

  lemma AppendKeepsAnswer(store: seq<VelocityRecord>, spends: seq<Spend>, s: Spend, w: string, since: int)
    requires SameAnswer(store, Records(spends), w, since)
    ensures SameAnswer(store + [s.record], Records(spends + [s]), w, since)
  {
    var more, history := store + [s.record], Records(spends + [s]);
    assert more[..|store|] == store && history[..|spends|] == Records(spends);
  }

  /** A spend admitted by the check at `now`, over a store that answers the check's own windows, respects the windows
      that end when it is recorded. */
  lemma AdmittedSpendFits(store: seq<VelocityRecord>, spends: seq<Spend>, s: Spend, now: int)
    requires SameAnswer(store, Records(spends), s.record.walletId, now - DAY)
    requires SameAnswer(store, Records(spends), s.record.walletId, now - HOUR)
    requires now <= s.record.createdAt && forall i :: 0 <= i < |spends| ==> spends[i].record.usdUnits >= 0
    requires WithinLimits(store, s.record.walletId, s.tier, s.record.usdUnits, now)
    ensures WindowsHold(spends + [s], |spends|)
  {
    var history, w, at := Records(spends), s.record.walletId, s.record.createdAt;
    LaterWindowIsSmaller(history, w, now - DAY, at - DAY);
    LaterWindowIsSmaller(history, w, now - HOUR, at - HOUR);
    var more := spends + [s];
    assert more[..|spends| + 1] == more;
    assert Records(more)[..|spends|] == history;
  }

  // ---- one more operation ----

  /** What an operation can do to the velocity collection and its history. */
  lemma StepWrites(db: Db, op: Op)
    ensures var db' := Apply(db, op);
            || (db'.velocity == db.velocity && db'.spends == db.spends)
            || (&& op.ExpireVelocity? && db'.spends == db.spends && op.index < |db.velocity|
                && db.velocity[op.index].createdAt < op.now - VELOCITY_TTL
                && db'.velocity == db.velocity[..op.index] + db.velocity[op.index + 1..])
            || (&& |db'.spends| == |db.spends| + 1
                && var s := db'.spends[|db.spends|];
                   && db'.spends == db.spends + [s] && db'.velocity == db.velocity + [s.record]
                   && s.record.usdUnits >= 0
                   && (s.checked ==>
                         && op.Transfer? && s.record.createdAt == op.recordedAt
                         && WithinLimits(db.velocity, s.record.walletId, s.tier, s.record.usdUnits, op.checkedAt)))
  {
    hide WithinLimits, Normalize, UsdUnits, ScaleOf;
    if MoveOf(db, op).Some? && MoveOf(db, op).value.spend.Some? {
      assert op.Transfer? || op.Exchange? || op.Withdraw?;
      UsdUnitsNonNegative(op.units, if op.Transfer? then op.currency else Normalize(op.currency));
    }
  }

  lemma AppendKeepsWindows(spends: seq<Spend>, s: Spend)
    requires CheckedWindowsHold(spends) && (s.checked ==> WindowsHold(spends + [s], |spends|))
    ensures CheckedWindowsHold(spends + [s])
  {
    forall i | 0 <= i < |spends| && spends[i].checked ensures WindowsHold(spends + [s], i) {
      assert WindowsHold(spends, i);
      assert (spends + [s])[..i + 1] == spends[..i + 1];
    }
  }

  lemma SparedFront(ops: seq<Op>, since: int)
    requires ops != [] && Spared(ops, since)
    ensures Spared(ops[..|ops| - 1], since) && PurgeSpares(ops[|ops| - 1], since)
  {
    var front := ops[..|ops| - 1];
    assert forall j :: 0 <= j < |front| ==> front[j] == ops[j];
  }

  lemma AnswersStaySame(front: seq<Op>, op: Op, w: string, since: int)
    requires Inv(front) && Spared(front + [op], since)
    ensures var db := Run(EMPTY_DB, front + [op]); SameAnswer(db.velocity, Records(db.spends), w, since)
  {
    var db := Run(EMPTY_DB, front);
    RunSnoc(EMPTY_DB, front, op);
    SparedFront(front + [op], since);
    assert (front + [op])[..|front|] == front;
    assert SameAnswer(db.velocity, Records(db.spends), w, since);
    StepWrites(db, op);
    var db' := Apply(db, op);
    hide Apply, Run;
    if |db'.spends| == |db.spends| + 1 {
      AppendKeepsAnswer(db.velocity, db.spends, db'.spends[|db.spends|], w, since);
    } else if db'.velocity != db.velocity {
      OldRecordIsInvisible(db.velocity, op.index, w, since);
    }
  }

  /** The check of a timely transfer reads windows that no earlier purge touched; this is where the two days between
      the purge's three and the window's one are used. */
  lemma CheckIsSpared(ops: seq<Op>, i: nat)
    requires i < |ops| && ops[i].Transfer? && Timely(SLACK, ops, i)
    ensures Spared(ops[..i], ops[i].checkedAt - DAY) && Spared(ops[..i], ops[i].checkedAt - HOUR)
  {
  }

  lemma CheckedWindowsStay(front: seq<Op>, op: Op)
    requires Inv(front) && Timely(SLACK, front + [op], |front|)
    ensures CheckedWindowsHold(Run(EMPTY_DB, front + [op]).spends)
  {
    var db := Run(EMPTY_DB, front);
    RunSnoc(EMPTY_DB, front, op);
    StepWrites(db, op);
    var db' := Apply(db, op);
    if |db'.spends| == |db.spends| + 1 {
      var s := db'.spends[|db.spends|];
      if s.checked {
        CheckIsSpared(front + [op], |front|);
        assert (front + [op])[..|front|] == front;
        hide Apply, Run, WithinLimits;
        AdmittedSpendFits(db.velocity, db.spends, s, op.checkedAt);
      }
      AppendKeepsWindows(db.spends, s);
    }
  }

  lemma StepKeepsInv(front: seq<Op>, op: Op)
    requires Inv(front) && Timely(SLACK, front + [op], |front|)
    ensures Inv(front + [op])
  {
    var db' := Run(EMPTY_DB, front + [op]);
    forall w, t | Spared(front + [op], t) ensures SameAnswer(db'.velocity, Records(db'.spends), w, t) {
      AnswersStaySame(front, op, w, t);
    }
    CheckedWindowsStay(front, op);
    RunSnoc(EMPTY_DB, front, op);
    StepWrites(Run(EMPTY_DB, front), op);
    hide Apply, CheckedWindowsHold, SameAnswer;
  }

  /** In every run, whatever overlaps and however pods' clocks differ within two days: each rolling day that ends when a
      transfer is recorded holds at most the tier's daily volume and each rolling hour at most its count, over the full
      history of transfers, exchanges and withdrawals committed so far, whatever the three-day purge removed. */
  lemma {:induction false} EveryWindowHolds(ops: seq<Op>)
    requires Traffic(SLACK, ops)
    ensures Inv(ops)
  {
    if ops != [] {
      var front, op := ops[..|ops| - 1], ops[|ops| - 1];
      assert front + [op] == ops;
      forall i | 0 <= i < |front| ensures Timely(SLACK, front, i) {
        assert Timely(SLACK, ops, i);
      }
      EveryWindowHolds(front);
      assert Timely(SLACK, ops, |front|);
      StepKeepsInv(front, op);
    }
  }

  // ---- any window of a run ----

  predicate Inside(r: VelocityRecord, w: string, from: int, to: int) {
    r.walletId == w && from <= r.createdAt <= to
  }

  function VolumeInside(records: seq<VelocityRecord>, w: string, from: int, to: int): int {
    if records == [] then 0
    else
      var last := records[|records| - 1];
      VolumeInside(records[..|records| - 1], w, from, to) + if Inside(last, w, from, to) then last.usdUnits else 0
  }

  lemma {:induction false} InsideIsLess(records: seq<VelocityRecord>, w: string, from: int, to: int)
    requires forall i :: 0 <= i < |records| ==> records[i].usdUnits >= 0
    ensures VolumeInside(records, w, from, to) <= Volume(records, w, from)
  {
    if records != [] {
      InsideIsLess(records[..|records| - 1], w, from, to);
    }
  }

  lemma {:induction false} NothingInsideAfter(records: seq<VelocityRecord>, n: nat, w: string, from: int, to: int)
    requires n <= |records| && forall k :: n <= k < |records| ==> !Inside(records[k], w, from, to)
    ensures VolumeInside(records, w, from, to) == VolumeInside(records[..n], w, from, to)
  {
    if n == |records| {
      assert records[..n] == records;
    } else {
      var front := records[..|records| - 1];
      NothingInsideAfter(front, n, w, from, to);
      assert front[..n] == records[..n];
    }
  }

  /** Any day at all, wherever it ends: if the last commit with a record in it is a transfer, the whole day, records
      that other transactions committed out of order included, holds at most the volume of that transfer's tier. */
  lemma EveryDayHolds(ops: seq<Op>, w: string, end: int, i: nat)
    requires Traffic(SLACK, ops)
    requires var spends := Run(EMPTY_DB, ops).spends;
             && i < |spends| && spends[i].checked && Inside(spends[i].record, w, end - DAY, end)
             && forall k :: i < k < |spends| ==> !Inside(spends[k].record, w, end - DAY, end)
    ensures var spends := Run(EMPTY_DB, ops).spends;
            VolumeInside(Records(spends), w, end - DAY, end) <= GetTierConfig(spends[i].tier).dailyRollingLimit
  {
    EveryWindowHolds(ops);
    hide Run, VolumeInside, Traffic, SameAnswer, CheckedWindowsHold;
    DayHolds(Run(EMPTY_DB, ops).spends, w, end, i);
  }

  lemma DayHolds(spends: seq<Spend>, w: string, end: int, i: nat)
    requires CheckedWindowsHold(spends) && forall k :: 0 <= k < |spends| ==> spends[k].record.usdUnits >= 0
    requires i < |spends| && spends[i].checked && Inside(spends[i].record, w, end - DAY, end)
    requires forall k :: i < k < |spends| ==> !Inside(spends[k].record, w, end - DAY, end)
    ensures VolumeInside(Records(spends), w, end - DAY, end) <= GetTierConfig(spends[i].tier).dailyRollingLimit
  {
    hide Volume, VolumeInside, Count, GetTierConfig;
    var past := Records(spends[..i + 1]);
    assert past == Records(spends)[..i + 1];
    NothingInsideAfter(Records(spends), i + 1, w, end - DAY, end);
    InsideIsLess(past, w, end - DAY, end);
    LaterWindowIsSmaller(past, w, spends[i].record.createdAt - DAY, end - DAY);
    assert WindowsHold(spends, i);
  }

  // ---- the slack is exact ----

  /** A transfer of USD between wallets A and B, checked and recorded at one time. */
  function Payment(key: string, units: int, at: int): Op {
    Transfer(key, "A", "B", "USD", units, 0, 0, "", None, false, Unreachable(0), key, at, at)
  }

  ghost predicate CanPay(db: Db, tier: string, key: string, units: int, at: int) {
    && "A" in db.wallets && "B" in db.wallets && db.wallets["A"].status.Active? && db.wallets["B"].status.Active?
    && db.wallets["A"].currency == "USD" && db.wallets["B"].currency == "USD" && db.wallets["A"].kycTier == tier
    && Pot(db.wallets["A"], "USD") >= units > 0 && "USD" in db.wallets["A"].balances
    && key != "" && key !in db.idempotency && !HasTask(db.tasks, key)
    && WithinLimits(db.velocity, "A", tier, units, at)
  }

  lemma PaymentCommits(db: Db, tier: string, key: string, units: int, at: int)
    requires CanPay(db, tier, key, units, at)
    ensures var db' := Apply(db, Payment(key, units, at));
            var s := Spend(VelocityRecord("A", units, "USD", units, at), tier, true);
            && db'.velocity == db.velocity + [s.record] && db'.spends == db.spends + [s]
            && db'.idempotency == db.idempotency[key := key]
            && (exists t: Task :: t.key == key && db'.tasks == db.tasks + [t])
            && "A" in db'.wallets && "B" in db'.wallets
            && db'.wallets["A"] == Inc(db.wallets["A"], "USD", -units)
            && db'.wallets["B"] == Inc(db.wallets["B"], "USD", units)
  {
    PaymentAdmitted(db, tier, key, units, at);
    hide TransferAdmitted, CanPay, ValidateMoney, WithinLimits, ScaleOf, Normalize, UsdUnits;
    var m := TransferMove(db, Payment(key, units, at));
    assert Apply(db, Payment(key, units, at)).tasks == db.tasks + [m.task];
  }

  lemma PaymentAdmitted(db: Db, tier: string, key: string, units: int, at: int)
    requires CanPay(db, tier, key, units, at)
    ensures var op := Payment(key, units, at);
            && TransferAdmitted(db, op) && PrepareFx(op) == Some(Prepared("USD", units, false))
            && UsdUnits(units, "USD") == units && Normalize("USD") == "USD"
            && Commits(db, TransferMove(db, op))
  {
    CodeIsNormal("USD");
    assert UsdUnits(units, "USD") == units && ValidateMoney("USD", units, 0, 0);
    hide ScaleOf, Normalize, WithinLimits, UsdUnits, ValidateMoney;
  }

  /** A large payment of a TIER_3 wallet, its move to TIER_1, a purge that runs `slack` ahead, and one unit a day after
      the payment. */
  function Straddling(slack: int): seq<Op> {
    [Create("A", "USD", 1_000_000, "TIER_3"), Create("B", "USD", 0, "TIER_1"), Payment("k", 600_000, 0),
     SetTier("A", "TIER_1"), ExpireVelocity(0, DAY + slack), Payment("l", 1, DAY)]
  }

  lemma StraddlingRun(slack: int)
    requires slack > SLACK
    ensures Run(EMPTY_DB, Straddling(slack)).spends
            == [Spend(VelocityRecord("A", 600_000, "USD", 600_000, 0), "TIER_3", true),
                Spend(VelocityRecord("A", 1, "USD", 1, DAY), "TIER_1", true)]
  {
    hide Apply, CanPay, Run;
    var ops := Straddling(slack);
    var two := TwoWallets();
    FirstPayment(two);
    PaymentCommits(two, "TIER_3", "k", 600_000, 0);
    var three := Apply(two, ops[2]);
    var five := Apply(Apply(three, ops[3]), ops[4]);
    Demoted(three, slack);
    LastPayment(five);
    PaymentCommits(five, "TIER_1", "l", 1, DAY);
    RunOfSix(ops);
  }

  lemma TwoWallets() returns (db: Db)
    ensures db == Apply(Apply(EMPTY_DB, Create("A", "USD", 1_000_000, "TIER_3")), Create("B", "USD", 0, "TIER_1"))
    ensures db.wallets == map["A" := Wallet("USD", 1_000_000, map["USD" := 1_000_000], Active, "TIER_3"),
                              "B" := Wallet("USD", 0, map["USD" := 0], Active, "TIER_1")]
    ensures db.velocity == [] && db.spends == [] && db.tasks == [] && db.idempotency == map[]
  {
    PlainNames();
    CreatePlain(EMPTY_DB, "A", "USD", 1_000_000, "TIER_3");
    var one := Apply(EMPTY_DB, Create("A", "USD", 1_000_000, "TIER_3"));
    CreatePlain(one, "B", "USD", 0, "TIER_1");
    db := Apply(one, Create("B", "USD", 0, "TIER_1"));
    hide Apply, KycTier, Trim;
  }

  lemma Demoted(db: Db, slack: int)
    requires "A" in db.wallets && db.velocity == [VelocityRecord("A", 600_000, "USD", 600_000, 0)] && slack > SLACK
    ensures Apply(Apply(db, SetTier("A", "TIER_1")), ExpireVelocity(0, DAY + slack))
            == db.(wallets := db.wallets["A" := db.wallets["A"].(kycTier := "TIER_1")], velocity := [])
  {
  }

  lemma FirstPayment(db: Db)
    requires db.wallets == map["A" := Wallet("USD", 1_000_000, map["USD" := 1_000_000], Active, "TIER_3"),
                               "B" := Wallet("USD", 0, map["USD" := 0], Active, "TIER_1")]
    requires db.velocity == [] && db.spends == [] && db.tasks == [] && db.idempotency == map[]
    ensures CanPay(db, "TIER_3", "k", 600_000, 0)
  {
  }

  lemma LastPayment(db: Db)
    requires "A" in db.wallets && "B" in db.wallets
    requires db.wallets["A"] == Wallet("USD", 400_000, map["USD" := 400_000], Active, "TIER_1")
    requires db.wallets["B"].status.Active? && db.wallets["B"].currency == "USD"
    requires db.velocity == [] && |db.tasks| == 1 && db.tasks[0].key == "k" && db.idempotency == map["k" := "k"]
    ensures CanPay(db, "TIER_1", "l", 1, DAY)
  {
  }

  lemma RunOfSix(ops: seq<Op>)
    requires |ops| == 6
    ensures Run(EMPTY_DB, ops)
            == Apply(Apply(Apply(Apply(Apply(Apply(EMPTY_DB, ops[0]), ops[1]), ops[2]), ops[3]), ops[4]), ops[5])
  {
    hide Apply;
    assert ops == ops[..5] + [ops[5]] && ops[..5] == ops[..4] + [ops[4]] && ops[..4] == ops[..3] + [ops[3]];
    assert ops[..3] == ops[..2] + [ops[2]] && ops[..2] == ops[..1] + [ops[1]] && ops[..1] == [] + [ops[0]];
    RunSnoc(EMPTY_DB, ops[..5], ops[5]);
    RunSnoc(EMPTY_DB, ops[..4], ops[4]);
    RunSnoc(EMPTY_DB, ops[..3], ops[3]);
    RunSnoc(EMPTY_DB, ops[..2], ops[2]);
    RunSnoc(EMPTY_DB, ops[..1], ops[1]);
    RunSnoc(EMPTY_DB, [], ops[0]);
  }

  ghost predicate HoldsWithSlack(slack: int) {
    forall ops :: Traffic(slack, ops) ==> CheckedWindowsHold(Run(EMPTY_DB, ops).spends)
  }

  /** Purges may run ahead of the checks by the two days between the record's lifetime and the window, and not by a
      nanosecond more. */
  lemma SlackIsExact(slack: int)
    ensures HoldsWithSlack(slack) <==> slack <= SLACK
  {
    if slack <= SLACK {
      forall ops | Traffic(slack, ops) ensures CheckedWindowsHold(Run(EMPTY_DB, ops).spends) {
        forall i | 0 <= i < |ops| ensures Timely(SLACK, ops, i) {
          assert Timely(slack, ops, i);
        }
        EveryWindowHolds(ops);
      }
    } else {
      var ops := Straddling(slack);
      StraddlingRun(slack);
      assert forall i :: 0 <= i < |ops| ==> Timely(slack, ops, i);
      WindowOverflows(Run(EMPTY_DB, ops).spends);
    }
  }

  lemma WindowOverflows(spends: seq<Spend>)
    requires spends ==
             [Spend(VelocityRecord("A", 600_000, "USD", 600_000, 0), "TIER_3", true),
              Spend(VelocityRecord("A", 1, "USD", 1, DAY), "TIER_1", true)]
    ensures !CheckedWindowsHold(spends)
  {
    var past := Records(spends[..2]);
    assert past == [spends[0].record, spends[1].record];
    assert past[..1] == [spends[0].record] && past[..1][..0] == [];
    assert Volume(past[..1], "A", 0) == 600_000;
    assert Volume(past, "A", 0) == 600_001;
    assert !WindowsHold(spends, 1);
  }
}
