/** What each money operation does to the pots, stated on the wallets before and after
    (cmd/wallet-service/main.go:322-421, 516-586, 727-1031, 1353-1416, 1604-1647, 1828-1882). */
module WalletEffects {
  import opened Hashing
  import opened Currency
  import opened Compliance
  import opened Wallets
  import LedgerPods
  import LedgerRequests

  /** Every pot of every wallet changes by `delta`, the base balance with the pot of the wallet's own currency, and
      nothing else of a wallet changes. */
  ghost predicate PotsMove(before: map<string, Wallet>, after: map<string, Wallet>, delta: (string, string) -> int) {
    && after.Keys == before.Keys
    && forall id :: id in before ==> WalletMoves(before[id], after[id], id, delta)
  }

  ghost predicate WalletMoves(w: Wallet, w': Wallet, id: string, delta: (string, string) -> int) {
    && w'.currency == w.currency && w'.status == w.status && w'.kycTier == w.kycTier
    && w'.balance == w.balance + delta(id, w.currency)
    && forall c :: Pot(w', c) == Pot(w, c) + delta(id, c)
  }

  /** The money moved once, under this key, with this task, and with a velocity record if any. */
  ghost predicate Booked(db: Db, db': Db, delta: (string, string) -> int, key: string, task: Task,
                         record: Option<VelocityRecord>) {
    && PotsMove(db.wallets, db'.wallets, delta)
    && db'.tasks == db.tasks + [task] && task.key == key
    && db'.idempotency == db.idempotency[key := task.txId]
    && db'.velocity == (if record.Some? then db.velocity + [record.value] else db.velocity)
    && db'.created == db.created
  }

  predicate IsNewKey(db: Db, key: string) {
    key != "" && key !in db.idempotency && forall i :: 0 <= i < |db.tasks| ==> db.tasks[i].key != key
  }

  predicate Covers(db: Db, id: string, c: string, amount: int) {
    && id in db.wallets
    && var w := db.wallets[id];
       (c in w.balances && w.balances[c] >= amount) || (w.currency == c && w.balance >= amount)
  }

  /** One increment, seen from any wallet. */
  lemma IncMoves(wallets: map<string, Wallet>, who: string, currency: string, amount: int, id: string)
    requires who in wallets && id in wallets
    ensures IncIn(wallets, who, currency, amount).Keys == wallets.Keys
    ensures WalletMoves(wallets[id], IncIn(wallets, who, currency, amount)[id], id,
                        (x, c) => if x == who && c == currency then amount else 0)
  {
  }

  /** What one side of a movement adds to a pot. */
  function Side(change: Option<Change>, id: string, c: string): int {
    if change.Some? && change.value.wallet == id && change.value.currency == c then change.value.amount else 0
  }

  lemma MovedWallet(wallets: map<string, Wallet>, m: Move, id: string)
    requires m.debit.Some? ==> m.debit.value.wallet in wallets
    requires m.credit.Some? ==> m.credit.value.wallet in wallets
    requires id in wallets
    ensures Moved(wallets, m).Keys == wallets.Keys
    ensures WalletMoves(wallets[id], Moved(wallets, m)[id], id, (x, c) => Side(m.credit, x, c) - Side(m.debit, x, c))
  {
    hide Inc, IncIn, Pot;
    var debited := wallets;
    if m.debit.Some? {
      var d := m.debit.value;
      debited := IncIn(wallets, d.wallet, d.currency, -d.amount);
      IncMoves(wallets, d.wallet, d.currency, -d.amount, id);
    }
    if m.credit.Some? {
      var c := m.credit.value;
      IncMoves(debited, c.wallet, c.currency, c.amount, id);
    }
  }

  lemma CommitMoves(db: Db, m: Move, delta: (string, string) -> int)
    requires Commits(db, m) && forall id, c :: delta(id, c) == Side(m.credit, id, c) - Side(m.debit, id, c)
    ensures PotsMove(db.wallets, Commit(db, m).wallets, delta)
  {
    hide HasTask, CanDebit, Pot;
    assert Moved(db.wallets, m).Keys == db.wallets.Keys;
    hide Side, Moved;
    forall id | id in db.wallets ensures WalletMoves(db.wallets[id], Moved(db.wallets, m)[id], id, delta) {
      MovedWallet(db.wallets, m, id);
    }
  }

  lemma CommitBooks(db: Db, m: Move, delta: (string, string) -> int)
    requires Commits(db, m) && forall id, c :: delta(id, c) == Side(m.credit, id, c) - Side(m.debit, id, c)
    ensures Booked(db, Commit(db, m), delta, m.task.key, m.task,
                   if m.spend.Some? then Some(m.spend.value.record) else None)
  {
    CommitMoves(db, m, delta);
    hide PotsMove, Moved, Side;
  }

  // ---- exchanges ----

  ghost predicate ExchangeGoes(db: Db, op: Op)
    requires op.Exchange?
  {
    var from, to := Normalize(op.currency), Normalize(op.toCurrency);
    && IsNewKey(db, op.key) && op.wallet != "" && from != to
    && LedgerRequests.Listed(from) && LedgerRequests.Listed(to)
    && op.units > 0 && op.target > 0 && Covers(db, op.wallet, from, op.units)
  }

  function ExchangeDelta(wallet: string, from: string, units: int, to: string, target: int): (string, string) -> int {
    (id, c) => if id != wallet then 0 else if c == from then -units else if c == to then target else 0
  }

  /** An exchange that goes takes exactly its units from the source pot and adds exactly its target to the target
      pot; its task says the same; one that does not go changes nothing. */
  lemma ExchangeEffect(db: Db, op: Op)
    requires op.Exchange?
    ensures !ExchangeGoes(db, op) ==> Apply(db, op) == db
    ensures ExchangeGoes(db, op) ==>
              var from, to := Normalize(op.currency), Normalize(op.toCurrency);
              Booked(db, Apply(db, op), ExchangeDelta(op.wallet, from, op.units, to, op.target), op.key,
                     LedgerPods.Request(op.txId, op.key, op.wallet, op.wallet, op.units, from, op.target, to),
                     Some(VelocityRecord(op.wallet, op.units, Normalize(from), UsdUnits(op.units, from),
                                         op.recordedAt)))
  {
    LedgerRequests.ListedAreTheCodes(Normalize(op.currency));
    LedgerRequests.ListedAreTheCodes(Normalize(op.toCurrency));
    hide ScaleOf, Normalize, UsdUnits, LedgerRequests.Listed, Commit, PotsMove;
    if ExchangeGoes(db, op) {
      var m := MoveOf(db, op).value;
      assert Commits(db, m);
      CommitBooks(db, m,
                  ExchangeDelta(op.wallet, Normalize(op.currency), op.units, Normalize(op.toCurrency), op.target));
    }
  }

  // ---- deposits and withdrawals ----

  /** Units of a valid amount: a positive one, or none with nanos. */
  predicate IsMoney(currency: string, units: int, nanos: int, scale: int) {
    && LedgerRequests.Listed(currency)
    && (scale == 0 || Some(scale) == ScaleOf(currency))
    && 0 <= nanos <= 999_999_999 && units >= 0 && (units > 0 || nanos > 0)
    && (currency in ["JPY", "KRW"] ==> nanos == 0)
  }

  lemma MoneyIsValid(currency: string, units: int, nanos: int, scale: int)
    ensures ValidateMoney(currency, units, nanos, scale) <==> IsMoney(Normalize(currency), units, nanos, scale)
  {
    LedgerRequests.ListedAreTheCodes(Normalize(currency));
    hide Normalize;
  }

  predicate IsRail(rail: string) {
    rail == "CARD" || rail == "ACH" || rail == "SEPA" || rail == "WIRE"
  }

  function OneDelta(wallet: string, currency: string, amount: int): (string, string) -> int {
    (id, c) => if id == wallet && c == currency then amount else 0
  }

  ghost predicate DepositGoes(db: Db, op: Op)
    requires op.Deposit?
  {
    && IsNewKey(db, op.key) && op.wallet != "" && IsRail(op.rail)
    && IsMoney(Normalize(op.currency), op.units, op.nanos, op.scale) && op.wallet in db.wallets
  }

  /** A deposit that goes adds exactly its units, against the clearing account of its rail and currency. */
  lemma DepositEffect(db: Db, op: Op)
    requires op.Deposit?
    ensures !DepositGoes(db, op) ==> Apply(db, op) == db
    ensures DepositGoes(db, op) ==>
              var cur := Normalize(op.currency);
              Booked(db, Apply(db, op), OneDelta(op.wallet, cur, op.units), op.key,
                     LedgerPods.Request(op.txId, op.key, "EXTERNAL_CLEARING_" + op.rail + "_" + cur, op.wallet,
                                        op.units, cur, 0, ""), None)
  {
    MoneyIsValid(op.currency, op.units, op.nanos, op.scale);
    hide ScaleOf, Normalize, IsMoney, ValidateMoney, Commit, PotsMove;
    if DepositGoes(db, op) {
      var m := MoveOf(db, op).value;
      assert Commits(db, m);
      CommitBooks(db, m, OneDelta(op.wallet, Normalize(op.currency), op.units));
    }
  }

  ghost predicate WithdrawalGoes(db: Db, op: Op)
    requires op.Withdraw?
  {
    && IsNewKey(db, op.key) && op.wallet != "" && IsRail(op.rail) && op.units > 0
    && IsMoney(Normalize(op.currency), op.units, op.nanos, op.scale)
    && Covers(db, op.wallet, Normalize(op.currency), op.units)
  }

  /** A withdrawal that goes takes exactly its units, towards the clearing account of its rail and currency. */
  lemma WithdrawalEffect(db: Db, op: Op)
    requires op.Withdraw?
    ensures !WithdrawalGoes(db, op) ==> Apply(db, op) == db
    ensures WithdrawalGoes(db, op) ==>
              var cur := Normalize(op.currency);
              Booked(db, Apply(db, op), OneDelta(op.wallet, cur, -op.units), op.key,
                     LedgerPods.Request(op.txId, op.key, op.wallet, "EXTERNAL_CLEARING_" + op.rail + "_" + cur,
                                        op.units, cur, 0, ""),
                     Some(VelocityRecord(op.wallet, op.units, Normalize(cur), UsdUnits(op.units, cur), op.recordedAt)))
  {
    MoneyIsValid(op.currency, op.units, op.nanos, op.scale);
    hide ScaleOf, Normalize, IsMoney, ValidateMoney, UsdUnits, Commit, PotsMove;
    if WithdrawalGoes(db, op) {
      var m := MoveOf(db, op).value;
      assert Commits(db, m);
      CommitBooks(db, m, OneDelta(op.wallet, Normalize(op.currency), -op.units));
    }
  }

  // ---- transfers ----

  /** The transfer stays in its own currency: the destination was not seen, or shares the currency and no quote is
      given, or there is no FX service. */
  predicate StaysLocal(op: Op)
    requires op.Transfer?
  {
    || op.seenDestination.None?
    || (op.seenDestination.value == Normalize(op.currency) && op.quoteId == "")
    || !op.fxConfigured
  }

  /** An amount of another service is used if it is positive. */
  function Answered(op: Op): int
    requires op.Transfer?
  {
    var answer := match op.fx case Converted(t) => t case Unreachable(f) => f;
    if answer > 0 then answer else op.units
  }

  function CreditedCurrency(op: Op): string
    requires op.Transfer?
  {
    if StaysLocal(op) then Normalize(op.currency) else op.seenDestination.value
  }

  function Credited(op: Op): int
    requires op.Transfer?
  {
    if StaysLocal(op) then op.units else Answered(op)
  }

  ghost predicate TransferGoes(db: Db, op: Op)
    requires op.Transfer?
  {
    var from, to := Normalize(op.currency), CreditedCurrency(op);
    && IsNewKey(db, op.key) && op.source != "" && op.destination != "" && op.source != op.destination
    && IsMoney(from, op.units, op.nanos, op.scale)
    && (StaysLocal(op) || op.quoteId == "" || op.fx.Converted?)
    && op.source in db.wallets && db.wallets[op.source].status == Active
    && op.destination in db.wallets && db.wallets[op.destination].status == Active
    && WithinLimits(db.velocity, op.source, db.wallets[op.source].kycTier, UsdUnits(op.units, op.currency),
                    op.checkedAt)
    && Covers(db, op.source, from, op.units)
    && (to == db.wallets[op.destination].currency || from != to || Pot(db.wallets[op.destination], to) > 0)
  }

  function TransferDelta(op: Op): (string, string) -> int
    requires op.Transfer?
  {
    (id, c) =>
      if id == op.source && c == Normalize(op.currency) then -op.units
      else if id == op.destination && c == CreditedCurrency(op) then Credited(op)
      else 0
  }

  lemma PreparedTransfer(op: Op)
    requires op.Transfer?
    ensures PrepareFx(op).Some? <==> StaysLocal(op) || op.quoteId == "" || op.fx.Converted?
    ensures PrepareFx(op).Some? ==>
              var p := PrepareFx(op).value;
              && p.destCurrency == CreditedCurrency(op) && (op.units >= 0 ==> DestUnits(op, p) == Credited(op))
              && (p.crossCurrency <==> p.destCurrency != Normalize(op.currency))
  {
    hide Normalize;
  }

  /** A transfer that goes takes exactly its units from the source and adds exactly what it was priced at to the
      destination; its task carries both, the source currency as the request wrote it. */
  lemma TransferEffect(db: Db, op: Op)
    requires op.Transfer?
    ensures !TransferGoes(db, op) ==> Apply(db, op) == db
    ensures TransferGoes(db, op) ==>
              Booked(db, Apply(db, op), TransferDelta(op), op.key,
                     LedgerPods.Request(op.txId, op.key, op.source, op.destination, op.units, op.currency,
                                        Credited(op), CreditedCurrency(op)),
                     Some(VelocityRecord(op.source, op.units, Normalize(op.currency), UsdUnits(op.units, op.currency),
                                         op.recordedAt)))
  {
    TransferCommitsExactly(db, op);
    hide TransferGoes, TransferAdmitted, Commits, Commit, PrepareFx, Normalize, UsdUnits, CreditedCurrency, Credited,
        PotsMove;
    if TransferGoes(db, op) {
      CommitBooks(db, TransferMove(db, op), TransferDelta(op));
    }
  }

  lemma TransferCommitsExactly(db: Db, op: Op)
    requires op.Transfer?
    ensures TransferGoes(db, op) <==> TransferAdmitted(db, op) && Commits(db, TransferMove(db, op))
    ensures TransferAdmitted(db, op) ==>
              var m := TransferMove(db, op);
              && m.debit == Some(Change(op.source, Normalize(op.currency), op.units))
              && m.credit == Some(Change(op.destination, CreditedCurrency(op), Credited(op)))
              && m.task == LedgerPods.Request(op.txId, op.key, op.source, op.destination, op.units, op.currency,
                                              Credited(op), CreditedCurrency(op))
              && m.spend.Some?
              && m.spend.value.record ==
                      VelocityRecord(op.source, op.units, Normalize(op.currency), UsdUnits(op.units, op.currency),
                                     op.recordedAt)
  {
    MoneyIsValid(op.currency, op.units, op.nanos, op.scale);
    PreparedTransfer(op);
    hide ScaleOf, Normalize, ValidateMoney, UsdUnits, WithinLimits, PrepareFx, CreditedCurrency, StaysLocal;
    assert IsMoney(Normalize(op.currency), op.units, op.nanos, op.scale) ==> op.units >= 0;
  }

  // ---- creation ----

  /** A wallet is created empty but for its initial balance, and only if the id is new and the request is valid. */
  lemma CreationEffect(db: Db, op: Op)
    requires op.Create?
    ensures var goes := Trim(op.id) != "" && op.id !in db.wallets && LedgerRequests.Listed(Normalize(op.currency))
            && op.initial >= 0
                        && (Trim(op.tier) == "" || Trim(op.tier) in ["TIER_1", "TIER_2", "TIER_3"]);
            if !goes then Apply(db, op) == db
            else
              && Apply(db, op).wallets.Keys == db.wallets.Keys + {op.id}
              && (forall id :: id in db.wallets ==> Apply(db, op).wallets[id] == db.wallets[id])
              && var w := Apply(db, op).wallets[op.id];
                 && w.currency == Normalize(op.currency) && w.balance == op.initial && w.status == Active
                 && w.kycTier == (if Trim(op.tier) == "" then "TIER_1" else Trim(op.tier))
                 && forall c :: Pot(w, c) == if c == Normalize(op.currency) then op.initial else 0
  {
    LedgerRequests.ListedAreTheCodes(Normalize(op.currency));
    hide ScaleOf, Normalize, Trim, LedgerRequests.Listed;
  }
}
