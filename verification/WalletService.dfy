/** The transaction bodies of the wallet service, updating the collections (cmd/wallet-service/main.go). A body works on
    the session's view and writes it back at commit; an error leaves the collections alone. */
module WalletService {
  import opened Hashing
  import opened Currency
  import opened Compliance
  import opened Wallets
  import LedgerPods

  datatype TxnStatus = Success | RejectedDuplicate | InvalidArgument | InsufficientFunds | InternalError |
      VelocityLimitExceeded | Aborted

  class Service {
    var db: Db

    constructor ()
      ensures db == EMPTY_DB
    {
      db := EMPTY_DB;
    }

    method CreateWallet(op: Op) returns (status: TxnStatus)
      requires op.Create?
      modifies this
      ensures db == Apply(old(db), op)
      ensures status.Success? <==> op.id in db.wallets && op.id !in old(db).wallets
    {
      if Trim(op.id) == "" || !IsValidCurrency(op.currency) || op.initial < 0 {
        return InvalidArgument;
      }
      var tier := Trim(op.tier);
      if tier == "" {
        tier := "TIER_1";
      }
      if tier !in TIERS {
        return InvalidArgument;
      }
      if op.id in db.wallets {
        return Aborted;
      }
      var curr := Normalize(op.currency);
      var model := Wallet(curr, op.initial, map[curr := op.initial], Active, tier);
      db := db.(wallets := db.wallets[op.id := model], created := db.created[op.id := model]);
      return Success;
    }

    /** validateWalletsOperational. */
    method ValidateWalletsOperational(op: Op) returns (status: TxnStatus)
      requires op.Transfer?
      ensures status.Success? <==>
                && op.source in db.wallets && op.destination in db.wallets
                && db.wallets[op.source].status.Active? && db.wallets[op.destination].status.Active?
                && WithinLimits(db.velocity, op.source, db.wallets[op.source].kycTier,
                                UsdUnits(op.units, op.currency), op.checkedAt)
      ensures !status.RejectedDuplicate?
    {
      if op.source !in db.wallets {
        return InsufficientFunds;
      }
      if !db.wallets[op.source].status.Active? {
        return InternalError;
      }
      if !WithinLimits(db.velocity, op.source, db.wallets[op.source].kycTier, UsdUnits(op.units, op.currency),
                       op.checkedAt) {
        return VelocityLimitExceeded;
      }
      if op.destination !in db.wallets || !db.wallets[op.destination].status.Active? {
        return InternalError;
      }
      return Success;
    }

    /** executeDebitAndCredit on the session's view of the wallets. */
    method ExecuteDebitAndCredit(op: Op, p: Prepared) returns (status: TxnStatus, wallets: map<string, Wallet>)
      requires op.Transfer? && op.source != op.destination && op.source in db.wallets && op.destination in db.wallets
      ensures status.Success? <==>
                && CanDebit(db.wallets[op.source], Normalize(op.currency), op.units)
                && (p.destCurrency == db.wallets[op.destination].currency || p.crossCurrency
                    || Pot(db.wallets[op.destination], p.destCurrency) > 0)
      ensures status.Success? ==>
                wallets == IncIn(IncIn(db.wallets, op.source, Normalize(op.currency), -op.units),
                                 op.destination, p.destCurrency, DestUnits(op, p))
      ensures !status.RejectedDuplicate?
    {
      wallets := db.wallets;
      var destUnits := if p.destUnits <= 0 then op.units else p.destUnits;
      var srcCurr := Normalize(op.currency);
      var srcWallet, dstWallet := wallets[op.source], wallets[op.destination];
      if !CanDebit(srcWallet, srcCurr, op.units) {
        return InsufficientFunds, wallets;
      }
      var debited := srcWallet.(balances := srcWallet.balances[srcCurr := Pot(srcWallet, srcCurr) - op.units]);
      if srcCurr == srcWallet.currency {
        debited := debited.(balance := debited.balance - op.units);
      }
      wallets := wallets[op.source := debited];
      if p.destCurrency != dstWallet.currency && !p.crossCurrency {
        if Pot(dstWallet, p.destCurrency) <= 0 {
          return InternalError, wallets;
        }
      }
      var credited :=
          dstWallet.(balances := dstWallet.balances[p.destCurrency := Pot(dstWallet, p.destCurrency) + destUnits]);
      if p.destCurrency == dstWallet.currency {
        credited := credited.(balance := credited.balance + destUnits);
      }
      wallets := wallets[op.destination := credited];
      return Success, wallets;
    }

    /** TransferFunds: validation, FX preparation, and the transaction. */
    method TransferFunds(op: Op) returns (status: TxnStatus)
      requires op.Transfer?
      modifies this
      ensures db == Apply(old(db), op)
      ensures status.Success? <==> |db.tasks| == |old(db).tasks| + 1
      ensures status.RejectedDuplicate? ==> op.key in db.idempotency
    {
      hide ScaleOf, ValidateMoney, Normalize, UsdUnits, WithinLimits;
      if op.key == "" || op.source == "" || op.destination == ""
          || !ValidateMoney(op.currency, op.units, op.nanos, op.scale) {
        return InvalidArgument;
      }
      if op.source == op.destination {
        return InternalError;
      }
      var prepared := PrepareFx(op);
      if prepared.None? {
        return InternalError;
      }
      if op.key in db.idempotency {
        return RejectedDuplicate;
      }
      status := ValidateWalletsOperational(op);
      if !status.Success? {
        return;
      }
      var wallets;
      status, wallets := ExecuteDebitAndCredit(op, prepared.value);
      if !status.Success? {
        return;
      }
      var m := TransferMove(db, op);
      if HasTask(db.tasks, op.key) {
        return Aborted;
      }
      db := db.(wallets := wallets, tasks := db.tasks + [m.task], idempotency := db.idempotency[op.key := op.txId],
      velocity := db.velocity + [m.spend.value.record], spends := db.spends + [m.spend.value]);
      return Success;
    }

    /** The transaction of ExchangeCurrency: one update with a summed increment of the base balance. */
    method ExchangeCurrency(op: Op) returns (status: TxnStatus)
      requires op.Exchange?
      modifies this
      ensures db == Apply(old(db), op)
      ensures |db.tasks| == |old(db).tasks| + 1 <==> status.Success? && op.key !in old(db).idempotency
      ensures status.Success? ==> op.key in db.idempotency
    {
      hide ScaleOf, ValidateMoney, Normalize, UsdUnits, WithinLimits;
      var from, to := Normalize(op.currency), Normalize(op.toCurrency);
      if op.key == "" || op.wallet == "" || from == to || ScaleOf(from).None? || ScaleOf(to).None? || op.units <= 0
          || op.target <= 0 {
        return InvalidArgument;
      }
      if op.key in db.idempotency {
        return Success; // answered with the earlier transaction
      }
      if op.wallet !in db.wallets || !CanDebit(db.wallets[op.wallet], from, op.units) {
        return InsufficientFunds;
      }
      var wallet := db.wallets[op.wallet];
      var incBase := 0;
      if from == wallet.currency {
        incBase := -op.units;
      }
      if to == wallet.currency {
        incBase := incBase + op.target;
      }
      var pots := wallet.balances[from := Pot(wallet, from) - op.units][to := Pot(wallet, to) + op.target];
      if HasTask(db.tasks, op.key) {
        return Aborted;
      }
      var spend := Spend(Recorded(op.wallet, op.units, from, op.recordedAt), wallet.kycTier, false);
      db := db.(wallets := db.wallets[op.wallet := wallet.(balances := pots, balance := wallet.balance + incBase)],
      tasks := db.tasks + [LedgerPods.Request(op.txId, op.key, op.wallet, op.wallet, op.units, from, op.target, to)],
      idempotency := db.idempotency[op.key := op.txId],
      velocity := db.velocity + [spend.record], spends := db.spends + [spend]);
      return Success;
    }

    /** The transactions of DepositFunds and WithdrawFunds. */
    method DepositFunds(op: Op) returns (status: TxnStatus)
      requires op.Deposit?
      modifies this
      ensures db == Apply(old(db), op)
      ensures |db.tasks| == |old(db).tasks| + 1 <==> status.Success? && op.key !in old(db).idempotency
      ensures status.Success? ==> op.key in db.idempotency
    {
      hide ScaleOf, ValidateMoney, Normalize, UsdUnits, WithinLimits;
      var curr := Normalize(op.currency);
      if op.key == "" || op.wallet == "" || op.rail !in RAILS
          || !ValidateMoney(op.currency, op.units, op.nanos, op.scale) {
        return InvalidArgument;
      }
      if op.key in db.idempotency {
        return Success; // answered with the earlier transaction
      }
      if op.wallet !in db.wallets || HasTask(db.tasks, op.key) {
        return Aborted;
      }
      var wallet := db.wallets[op.wallet];
      var credited := wallet.(balances := wallet.balances[curr := Pot(wallet, curr) + op.units]);
      if curr == wallet.currency {
        credited := credited.(balance := credited.balance + op.units);
      }
      db := db.(wallets := db.wallets[op.wallet := credited],
      tasks := db.tasks +
          [LedgerPods.Request(op.txId, op.key, Clearing(op.rail, curr), op.wallet, op.units, curr, 0, "")],
      idempotency := db.idempotency[op.key := op.txId]);
      return Success;
    }

    method WithdrawFunds(op: Op) returns (status: TxnStatus)
      requires op.Withdraw?
      modifies this
      ensures db == Apply(old(db), op)
      ensures |db.tasks| == |old(db).tasks| + 1 <==> status.Success? && op.key !in old(db).idempotency
      ensures status.Success? ==> op.key in db.idempotency
    {
      hide ScaleOf, ValidateMoney, Normalize, UsdUnits, WithinLimits;
      var curr := Normalize(op.currency);
      if op.key == "" || op.wallet == "" || op.rail !in RAILS || op.units <= 0
          || !ValidateMoney(op.currency, op.units, op.nanos, op.scale) {
        return InvalidArgument;
      }
      if op.key in db.idempotency {
        return Success; // answered with the earlier transaction
      }
      if op.wallet !in db.wallets || !CanDebit(db.wallets[op.wallet], curr, op.units) {
        return InsufficientFunds;
      }
      if HasTask(db.tasks, op.key) {
        return Aborted;
      }
      var wallet := db.wallets[op.wallet];
      var debited := wallet.(balances := wallet.balances[curr := Pot(wallet, curr) - op.units]);
      if curr == wallet.currency {
        debited := debited.(balance := debited.balance - op.units);
      }
      var spend := Spend(Recorded(op.wallet, op.units, curr, op.recordedAt), wallet.kycTier, false);
      db := db.(wallets := db.wallets[op.wallet := debited],
      tasks := db.tasks +
          [LedgerPods.Request(op.txId, op.key, op.wallet, Clearing(op.rail, curr), op.units, curr, 0, "")],
      idempotency := db.idempotency[op.key := op.txId],
      velocity := db.velocity + [spend.record], spends := db.spends + [spend]);
      return Success;
    }
  }
}
