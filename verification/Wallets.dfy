/** Wallet transactions (cmd/wallet-service/main.go). Each Mongo transaction is one atomic step on the wallets,
    idempotency records, ledger tasks and velocity records. */
module Wallets {
  import opened Hashing
  import opened Currency
  import LedgerPods
  import opened Compliance

  datatype WalletStatus = Active | Frozen | Closed

  datatype Wallet =
      Wallet(currency: string, balance: int, balances: map<string, int>, status: WalletStatus, kycTier: string)

  function Pot(w: Wallet, currency: string): int {
    if currency in w.balances then w.balances[currency] else 0
  }

  /** The content of a ledger task is the request the ledger will receive. */
  type Task = LedgerPods.Request

  /** A velocity record with the tier that admitted it, and whether the limits were checked in its own transaction. */
  datatype Spend = Spend(record: VelocityRecord, tier: string, checked: bool)

  /** The collections. `created` and `spends` are history kept by the model: each wallet as it was inserted, and
      every velocity record ever written. */
  datatype Db = Db(wallets: map<string, Wallet>, idempotency: map<string, string>, tasks: seq<Task>,
                   velocity: seq<VelocityRecord>, created: map<string, Wallet>, spends: seq<Spend>)

  const EMPTY_DB := Db(map[], map[], [], [], map[], [])

  // ---- requests ----

  /** What the FX service answered before the transaction began; the fallback table supplies the other amount. */
  datatype FxReply = Converted(targetAmount: int) | Unreachable(fallback: int)

  datatype Op =
    | Create(id: string, currency: string, initial: int, tier: string)
    | Transfer(key: string, source: string, destination: string, currency: string, units: int, nanos: int, scale: int,
               quoteId: string, seenDestination: Option<string>, fxConfigured: bool, fx: FxReply,
               txId: string, checkedAt: int, recordedAt: int)
    | Exchange(key: string, wallet: string, currency: string, units: int, toCurrency: string, target: int,
               txId: string, recordedAt: int)
    | Deposit(key: string, wallet: string, rail: string, currency: string, units: int, nanos: int, scale: int,
              txId: string)
    | Withdraw(key: string, wallet: string, rail: string, currency: string, units: int, nanos: int, scale: int,
               txId: string, recordedAt: int)
    | SetStatus(id: string, status: WalletStatus)
    | SetTier(id: string, tier: string)
    | ExpireIdempotency(key: string)
    | ExpireVelocity(index: nat, now: int)

  const RAILS := ["CARD", "ACH", "SEPA", "WIRE"]

  function Clearing(rail: string, currency: string): string {
    "EXTERNAL_CLEARING_" + rail + "_" + currency
  }

  /** prepareFXConversion: what the destination will be credited, None when a quote was refused. */
  datatype Prepared = Prepared(destCurrency: string, destUnits: int, crossCurrency: bool)

  function PrepareFx(op: Op): Option<Prepared>
    requires op.Transfer?
  {
    var src := Normalize(op.currency);
    if op.seenDestination.None? || (src == op.seenDestination.value && op.quoteId == "") || !op.fxConfigured then
      Some(Prepared(src, op.units, false))
    else
      var dst := op.seenDestination.value;
      match op.fx
      case Converted(t) => Some(Prepared(dst, t, src != dst))
      case Unreachable(f) => if op.quoteId != "" then None else Some(Prepared(dst, f, src != dst))
  }

  function DestUnits(op: Op, p: Prepared): int
    requires op.Transfer?
  {
    if p.destUnits <= 0 then op.units else p.destUnits
  }

  // ---- moves ----

  datatype Change = Change(wallet: string, currency: string, amount: int)

  /** A money movement: at most one debit, then at most one credit, with its task and velocity record. */
  datatype Move = Move(debit: Option<Change>, credit: Option<Change>, task: Task, spend: Option<Spend>)

  /** The $or filter of every debit. */
  predicate CanDebit(w: Wallet, currency: string, amount: int) {
    || (currency in w.balances && w.balances[currency] >= amount)
    || (w.currency == currency && w.balance >= amount)
  }

  /** $inc of a pot, and of the base balance when the currency is the wallet's own. */
  function Inc(w: Wallet, currency: string, delta: int): Wallet {
    w.(balances := w.balances[currency := Pot(w, currency) + delta],
    balance := if currency == w.currency then w.balance + delta else w.balance)
  }

  function IncIn(wallets: map<string, Wallet>, id: string, currency: string, delta: int): map<string, Wallet>
    requires id in wallets
  {
    wallets[id := Inc(wallets[id], currency, delta)]
  }

  predicate HasTask(tasks: seq<Task>, key: string) {
    exists i :: 0 <= i < |tasks| && tasks[i].key == key
  }

  predicate Commits(db: Db, m: Move) {
    && m.task.key !in db.idempotency
    && !HasTask(db.tasks, m.task.key)
    && (m.debit.Some? ==> m.debit.value.wallet in db.wallets
                          && CanDebit(db.wallets[m.debit.value.wallet], m.debit.value.currency, m.debit.value.amount))
    && (m.credit.Some? ==> m.credit.value.wallet in db.wallets)
  }

  function Moved(wallets: map<string, Wallet>, m: Move): map<string, Wallet>
    requires m.debit.Some? ==> m.debit.value.wallet in wallets
    requires m.credit.Some? ==> m.credit.value.wallet in wallets
  {
    var debited := if m.debit.Some?
      then IncIn(wallets, m.debit.value.wallet, m.debit.value.currency, -m.debit.value.amount) else wallets;
    if m.credit.Some? then IncIn(debited, m.credit.value.wallet, m.credit.value.currency, m.credit.value.amount)
      else debited
  }

  /** The transaction: a known key is a replay, a known task or an uncovered debit aborts, otherwise all is written. */
  function Commit(db: Db, m: Move): Db {
    if !Commits(db, m) then db
    else db.(wallets := Moved(db.wallets, m),
         tasks := db.tasks + [m.task],
         idempotency := db.idempotency[m.task.key := m.task.txId],
         velocity := if m.spend.Some? then db.velocity + [m.spend.value.record] else db.velocity,
         spends := if m.spend.Some? then db.spends + [m.spend.value] else db.spends)
  }

  predicate TransferAdmitted(db: Db, op: Op)
    requires op.Transfer?
  {
    && op.key != "" && op.source != "" && op.destination != "" && op.source != op.destination
    && ValidateMoney(op.currency, op.units, op.nanos, op.scale)
    && op.source in db.wallets && op.destination in db.wallets
    && db.wallets[op.source].status.Active? && db.wallets[op.destination].status.Active?
    && WithinLimits(db.velocity, op.source, db.wallets[op.source].kycTier, UsdUnits(op.units, op.currency),
                    op.checkedAt)
    && PrepareFx(op).Some?
    && var p := PrepareFx(op).value;
       p.destCurrency == db.wallets[op.destination].currency || p.crossCurrency
           || Pot(db.wallets[op.destination], p.destCurrency) > 0
  }

  function TransferMove(db: Db, op: Op): Move
    requires op.Transfer? && op.source in db.wallets && PrepareFx(op).Some?
  {
    var p := PrepareFx(op).value;
    var dest := DestUnits(op, p);
    Move(Some(Change(op.source, Normalize(op.currency), op.units)), Some(Change(op.destination, p.destCurrency, dest)),
         LedgerPods.Request(op.txId, op.key, op.source, op.destination, op.units, op.currency, dest, p.destCurrency),
         Some(Spend(Recorded(op.source, op.units, op.currency, op.recordedAt),
                    db.wallets[op.source].kycTier, true)))
  }

  function TierOf(db: Db, id: string): string {
    if id in db.wallets then db.wallets[id].kycTier else ""
  }

  /** The movement an operation attempts in a state, None when it is refused before any write. */
  function MoveOf(db: Db, op: Op): Option<Move> {
    match op
    case Transfer(_, _, _, _, _, _, _, _, _, _, _, _, _, _) =>
      if TransferAdmitted(db, op) then Some(TransferMove(db, op)) else None
    case Exchange(key, wallet, currency, units, toCurrency, target, txId, at) =>
      var from, to := Normalize(currency), Normalize(toCurrency);
      if key != "" && wallet != "" && from != to && ScaleOf(from).Some? && ScaleOf(to).Some? && units > 0
          && target > 0 then
        Some(Move(Some(Change(wallet, from, units)), Some(Change(wallet, to, target)),
                  LedgerPods.Request(txId, key, wallet, wallet, units, from, target, to),
                  Some(Spend(Recorded(wallet, units, from, at), TierOf(db, wallet), false))))
      else None
    case Deposit(key, wallet, rail, currency, units, nanos, scale, txId) =>
      var cur := Normalize(currency);
      if key != "" && wallet != "" && rail in RAILS && ValidateMoney(currency, units, nanos, scale) then
        Some(Move(None, Some(Change(wallet, cur, units)),
                  LedgerPods.Request(txId, key, Clearing(rail, cur), wallet, units, cur, 0, ""), None))
      else None
    case Withdraw(key, wallet, rail, currency, units, nanos, scale, txId, at) =>
      var cur := Normalize(currency);
      if key != "" && wallet != "" && rail in RAILS && units > 0 && ValidateMoney(currency, units, nanos, scale) then
        Some(Move(Some(Change(wallet, cur, units)), None,
                  LedgerPods.Request(txId, key, wallet, Clearing(rail, cur), units, cur, 0, ""),
                  Some(Spend(Recorded(wallet, units, cur, at), TierOf(db, wallet), false))))
      else None
    case _ => None
  }

  const TIERS := ["TIER_1", "TIER_2", "TIER_3"]

  function KycTier(tier: string): string {
    if Trim(tier) == "" then "TIER_1" else Trim(tier)
  }

  predicate Creatable(db: Db, op: Op)
    requires op.Create?
  {
    Trim(op.id) != "" && IsValidCurrency(op.currency) && op.initial >= 0 && KycTier(op.tier) in TIERS
        && op.id !in db.wallets
  }

  function CreatedWallet(op: Op): Wallet
    requires op.Create?
  {
    var cur := Normalize(op.currency);
    Wallet(cur, op.initial, map[cur := op.initial], Active, KycTier(op.tier))
  }

  function Apply(db: Db, op: Op): Db {
    match op
    case Create(id, currency, initial, tier) =>
      if Creatable(db, op) then
        db.(wallets := db.wallets[id := CreatedWallet(op)], created := db.created[id := CreatedWallet(op)])
      else db
    case SetStatus(id, status) =>
      if id in db.wallets then db.(wallets := db.wallets[id := db.wallets[id].(status := status)]) else db
    case SetTier(id, tier) =>
      if id in db.wallets && tier in TIERS
      then db.(wallets := db.wallets[id := db.wallets[id].(kycTier := tier)]) else db
    case ExpireIdempotency(key) => db.(idempotency := db.idempotency - {key})
    case ExpireVelocity(i, now) =>
      if i < |db.velocity| && db.velocity[i].createdAt < now - VELOCITY_TTL
      then db.(velocity := db.velocity[..i] + db.velocity[i + 1..]) else db
    case _ =>
      match MoveOf(db, op)
      case Some(m) => Commit(db, m)
      case None => db
  }

  function Run(db: Db, ops: seq<Op>): Db {
    if ops == [] then db else Apply(Run(db, ops[..|ops| - 1]), ops[|ops| - 1])
  }

  // ---- no pot is ever negative, and the base balance is the primary pot ----

  ghost predicate Healthy(w: Wallet) {
    && w.currency in w.balances && w.balance == w.balances[w.currency]
    && forall c :: c in w.balances ==> w.balances[c] >= 0
  }

  ghost predicate AllHealthy(wallets: map<string, Wallet>) {
    forall id :: id in wallets ==> Healthy(wallets[id])
  }

  /** For a healthy wallet the second branch of the filter adds nothing: a debit passes exactly when the pot covers
      it. */
  lemma DebitFilterIsPot(w: Wallet, currency: string, amount: int)
    requires Healthy(w) && amount >= 1
    ensures CanDebit(w, currency, amount) <==> Pot(w, currency) >= amount
  {
  }

  lemma MovedStaysHealthy(db: Db, m: Move)
    requires AllHealthy(db.wallets) && Commits(db, m)
    requires m.debit.Some? ==> m.debit.value.amount >= 0
    requires m.credit.Some? ==> m.credit.value.amount >= 0
    ensures AllHealthy(Moved(db.wallets, m))
  {
  }

  lemma MoveAmounts(db: Db, op: Op)
    requires MoveOf(db, op).Some?
    ensures var m := MoveOf(db, op).value;
            && (m.debit.Some? ==> m.debit.value.amount >= 0) && (m.credit.Some? ==> m.credit.value.amount >= 0)
            && m.task.key != ""
  {
  }

  lemma StepStaysHealthy(db: Db, op: Op)
    requires AllHealthy(db.wallets)
    ensures AllHealthy(Apply(db, op).wallets)
  {
    if MoveOf(db, op).Some? {
      var m := MoveOf(db, op).value;
      MoveAmounts(db, op);
      if Commits(db, m) {
        MovedStaysHealthy(db, m);
      }
    }
  }

  /** In every reachable state no pot is negative and every base balance equals the primary pot. */
  lemma {:induction false} EveryRunIsHealthy(ops: seq<Op>)
    ensures AllHealthy(Run(EMPTY_DB, ops).wallets)
  {
    if ops != [] {
      EveryRunIsHealthy(ops[..|ops| - 1]);
      StepStaysHealthy(Run(EMPTY_DB, ops[..|ops| - 1]), ops[|ops| - 1]);
    }
  }

  /** A wallet's primary currency never changes, so reading it before the transaction is safe. */
  lemma {:induction false} CurrencyNeverChanges(db: Db, ops: seq<Op>, id: string)
    requires id in db.wallets
    ensures id in Run(db, ops).wallets && Run(db, ops).wallets[id].currency == db.wallets[id].currency
  {
    if ops != [] {
      CurrencyNeverChanges(db, ops[..|ops| - 1], id);
    }
  }

  // ---- an idempotency key moves money at most once ----

  predicate IsMoneyOp(op: Op) {
    op.Transfer? || op.Exchange? || op.Deposit? || op.Withdraw?
  }

  /** Operation i of the run, under this key, changed some wallet. */
  ghost predicate MovesMoney(db: Db, ops: seq<Op>, i: nat, key: string)
    requires i < |ops|
  {
    && IsMoneyOp(ops[i]) && ops[i].key == key
    && Run(db, ops[..i + 1]).wallets != Run(db, ops[..i]).wallets
  }

  lemma MoneyStepLeavesTask(db: Db, op: Op)
    requires IsMoneyOp(op) && Apply(db, op).wallets != db.wallets
    ensures !HasTask(db.tasks, op.key) && HasTask(Apply(db, op).tasks, op.key)
  {
    var m := MoveOf(db, op).value;
    var after := Apply(db, op).tasks;
    assert after[|db.tasks|] == m.task;
  }

  lemma StepKeepsTasks(db: Db, op: Op)
    ensures db.tasks <= Apply(db, op).tasks
  {
  }

  lemma {:induction false} RunKeepsTasks(db: Db, ops: seq<Op>, i: nat, key: string)
    requires i <= |ops| && HasTask(Run(db, ops[..i]).tasks, key)
    ensures HasTask(Run(db, ops).tasks, key)
    decreases |ops|
  {
    if i == |ops| {
      assert ops[..i] == ops;
    } else {
      var front := ops[..|ops| - 1];
      assert front[..i] == ops[..i];
      RunKeepsTasks(db, front, i, key);
      StepKeepsTasks(Run(db, front), ops[|ops| - 1]);
      var j :| 0 <= j < |Run(db, front).tasks| && Run(db, front).tasks[j].key == key;
      assert Run(db, ops).tasks[j].key == key;
    }
  }

  /** In any run, whatever idempotency records expire, at most one operation with a given key moves money,
      across transfers, exchanges, deposits and withdrawals. */
  lemma KeyMovesMoneyOnce(db: Db, ops: seq<Op>, i: nat, j: nat, key: string)
    requires i < j < |ops|
    ensures !(MovesMoney(db, ops, i, key) && MovesMoney(db, ops, j, key))
  {
    if MovesMoney(db, ops, i, key) && MovesMoney(db, ops, j, key) {
      MoneyMoveTasks(db, ops, i, key);
      MoneyMoveTasks(db, ops, j, key);
      assert ops[..j][..i + 1] == ops[..i + 1];
      RunKeepsTasks(db, ops[..j], i + 1, key);
    }
  }

  lemma MoneyMoveTasks(db: Db, ops: seq<Op>, i: nat, key: string)
    requires i < |ops| && MovesMoney(db, ops, i, key)
    ensures !HasTask(Run(db, ops[..i]).tasks, key) && HasTask(Run(db, ops[..i + 1]).tasks, key)
  {
    assert ops[..i + 1][..i] == ops[..i];
    MoneyStepLeavesTask(Run(db, ops[..i]), ops[i]);
  }

  // ---- small databases ----

  lemma PlainNames()
    ensures Trim("A") == "A" && Trim("B") == "B" && KycTier("TIER_1") == "TIER_1" && KycTier("TIER_3") == "TIER_3"
  {
    var t, u := "TIER_1", "TIER_3";
    assert !IsSpace('A') && !IsSpace('B') && !IsSpace(t[0]) && !IsSpace(t[5]) && !IsSpace(u[5]);
    assert TrimLeft(t) == t && TrimRight(t) == t && TrimLeft(u) == u && TrimRight(u) == u;
  }

  lemma CreatePlain(db: Db, id: string, c: string, initial: int, tier: string)
    requires IsCode(c) && Trim(id) != "" && id !in db.wallets && initial >= 0 && tier in TIERS && KycTier(tier) == tier
    ensures var w := Wallet(c, initial, map[c := initial], Active, tier);
            Apply(db, Create(id, c, initial, tier)) ==
                db.(wallets := db.wallets[id := w], created := db.created[id := w])
  {
    CodeIsNormal(c);
    hide Normalize, Trim, KycTier, ScaleOf;
  }

  lemma RunSnoc(db: Db, ops: seq<Op>, op: Op)
    ensures Run(db, ops + [op]) == Apply(Run(db, ops), op)
  {
    assert (ops + [op])[..|ops|] == ops;
  }
}
