/** Pots against the postings of committed ledger tasks. */
module Conservation {
  import opened Hashing
  import opened Currency
  import opened Encoding
  import opened Postings
  import LedgerPods
  import opened Wallets

  function PostingNet(p: Posting, account: string, currency: string): int {
    if p.accountId != account || p.currency != currency then 0
    else if p.direction == CREDIT then p.amount
    else if p.direction == DEBIT then -p.amount
    else 0
  }

  /** Credits minus debits of one account in one currency. */
  function Net(ps: seq<Posting>, account: string, currency: string): int {
    if ps == [] then 0 else PostingNet(ps[0], account, currency) + Net(ps[1..], account, currency)
  }

  /** The postings the ledger generates from a task; none when it refuses the task. */
  function TaskPostings(t: Task): seq<Posting> {
    if LedgerPods.HasPostings(t) then LedgerPods.Legs(t) else []
  }

  function NetOfTasks(tasks: seq<Task>, account: string, currency: string): int {
    if tasks == [] then 0
    else NetOfTasks(tasks[..|tasks| - 1], account, currency) + Net(TaskPostings(tasks[|tasks| - 1]), account, currency)
  }

  function LegNet(leg: Option<Change>, sign: int, account: string, currency: string): int {
    if leg.Some? && leg.value.wallet == account && leg.value.currency == currency then sign * leg.value.amount else 0
  }

  /** What a movement adds to a pot. */
  function MoveNet(m: Move, account: string, currency: string): int {
    LegNet(m.credit, 1, account, currency) + LegNet(m.debit, -1, account, currency)
  }

  /** Account names the ledger uses for its own side of a posting. Nothing stops a wallet from having one. */
  ghost predicate IsSystemAccount(id: string) {
    || (exists c :: IsCode(c) && id == FxPool(c))
    || (exists r, c :: r in RAILS && IsCode(c) && id == Clearing(r, c))
  }

  lemma NetOfLegs(ps: seq<Posting>, account: string, c: string)
    requires |ps| == 2 || |ps| == 4
    ensures |ps| == 2 ==> Net(ps, account, c) == PostingNet(ps[0], account, c) + PostingNet(ps[1], account, c)
    ensures |ps| == 4 ==> Net(ps, account, c) == PostingNet(ps[0], account, c) + PostingNet(ps[1], account, c)
                                                 + PostingNet(ps[2], account, c) + PostingNet(ps[3], account, c)
  {
    var tail := ps[1..];
    assert tail[1..] == ps[2..];
    assert Net(ps, account, c) ==
           PostingNet(ps[0], account, c) + PostingNet(ps[1], account, c) + Net(ps[2..], account, c);
    if |ps| == 4 {
      var rest := ps[2..];
      assert rest[1..] == [ps[3]] && rest[1..][1..] == [];
    }
  }

  /** Net effect of a task, leg by leg. */
  lemma TaskNet(t: Task, account: string, c: string)
    ensures LedgerPods.HasPostings(t) && SingleCurrency(t.amount, t.currency, t.destAmount, t.destCurrency) ==>
              Net(TaskPostings(t), account, c) ==
              (if t.source == account && t.currency == c then -t.amount else 0)
              + (if t.destination == account && t.currency == c then t.amount else 0)
    ensures LedgerPods.HasPostings(t) && !SingleCurrency(t.amount, t.currency, t.destAmount, t.destCurrency)
            && account != FxPool(t.currency) && account != FxPool(t.destCurrency) ==>
              Net(TaskPostings(t), account, c) ==
              (if t.source == account && t.currency == c then -t.amount else 0)
              + (if t.destination == account && t.destCurrency == c then t.destAmount else 0)
    ensures !LedgerPods.HasPostings(t) ==> Net(TaskPostings(t), account, c) == 0
  {
    if LedgerPods.HasPostings(t) {
      NetOfLegs(TaskPostings(t), account, c);
    }
  }

  // ---- transfers: exactly when the task says what was moved ----

  /** A transfer's task describes its movement. Checkable before the transaction: the amounts and the currency as
      written in the request. */
  predicate AmountsMatch(op: Op)
    requires op.Transfer? && PrepareFx(op).Some?
  {
    var p := PrepareFx(op).value;
    var dest := DestUnits(op, p);
    if op.units == 0 then dest == 0
    else Normalize(op.currency) == op.currency && (p.destCurrency == op.currency ==> dest == op.units)
  }

  ghost predicate Matches(m: Move, account: string) {
    forall c :: MoveNet(m, account, c) == Net(TaskPostings(m.task), account, c)
  }

  /** A debit and a credit, described by a task with the same sides and amounts. */
  lemma TwoSidedMoveMatches(m: Move, account: string)
    requires m.debit.Some? && m.credit.Some?
    requires var t, d, c := m.task, m.debit.value, m.credit.value;
             && t.source == d.wallet && t.amount == d.amount && t.currency == d.currency
             && t.destination == c.wallet && t.destAmount == c.amount && t.destCurrency == c.currency
             && t.source != "" && t.destination != "" && t.currency != "" && t.destCurrency != ""
             && d.amount > 0 && c.amount > 0
             && (t.destCurrency == t.currency ==> c.amount == d.amount)
             && account != FxPool(t.currency) && account != FxPool(t.destCurrency)
    ensures Matches(m, account)
  {
    forall c ensures MoveNet(m, account, c) == Net(TaskPostings(m.task), account, c) {
      TaskNet(m.task, account, c);
    }
  }

  /** A debit or a credit against a clearing account. */
  lemma OneSidedMoveMatches(m: Move, account: string)
    requires var t := m.task;
             && t.destCurrency == "" && t.currency != "" && t.source != "" && t.destination != ""
             && match (m.debit, m.credit)
                case (Some(d), None) =>
                  t.source == d.wallet && t.amount == d.amount && t.currency == d.currency && account != t.destination
                case (None, Some(c)) =>
                  t.destination == c.wallet && t.amount == c.amount && t.currency == c.currency && account != t.source
                case _ => false
    requires m.task.amount >= 0
    ensures Matches(m, account)
  {
    forall c ensures MoveNet(m, account, c) == Net(TaskPostings(m.task), account, c) {
      TaskNet(m.task, account, c);
    }
  }

  lemma TransferMatchesIfAmountsMatch(db: Db, op: Op, account: string)
    requires op.Transfer? && TransferAdmitted(db, op) && AmountsMatch(op)
    requires var p := PrepareFx(op).value;
             account != FxPool(op.currency) && account != FxPool(p.destCurrency) && p.destCurrency != ""
    ensures Matches(TransferMove(db, op), account)
  {
    var m := TransferMove(db, op);
    assert op.units >= 0 && Normalize(op.currency) != "";
    if op.units == 0 {
      ZeroTransferMatches(db, op, account);
    } else {
      TwoSidedMoveMatches(m, account);
    }
  }

  /** The postings of a task in a currency as written never touch the normal form of that currency. */
  lemma RawCurrencyNet(t: Task, c: string)
    requires c != t.currency && t.destAmount > 0 && t.source != t.destination && t.source != FxPool(t.destCurrency)
    requires t.currency != t.destCurrency && t.destCurrency != ""
    ensures Net(TaskPostings(t), t.source, c) == 0
  {
    if LedgerPods.HasPostings(t) {
      NetOfLegs(TaskPostings(t), t.source, c);
    }
  }

  lemma TransferMatchesOnlyIfAmountsMatch(db: Db, op: Op)
    requires op.Transfer? && TransferAdmitted(db, op) && !AmountsMatch(op) && IsCode(PrepareFx(op).value.destCurrency)
    requires !IsSystemAccount(op.source) && !IsSystemAccount(op.destination)
    ensures !Matches(TransferMove(db, op), op.source) || !Matches(TransferMove(db, op), op.destination)
  {
    var m, p, cur := TransferMove(db, op), PrepareFx(op).value, Normalize(op.currency);
    CodeIsNormal(p.destCurrency);
    CodesNameSystemAccounts(p.destCurrency, "");
    hide ScaleOf, IsSystemAccount, ValidateMoney;
    if op.units == 0 {
      TaskNet(m.task, op.destination, p.destCurrency);
      assert MoveNet(m, op.destination, p.destCurrency) != Net(TaskPostings(m.task), op.destination, p.destCurrency);
    } else if cur != op.currency {
      RawCurrencyNet(m.task, cur);
      assert MoveNet(m, op.source, cur) != Net(TaskPostings(m.task), op.source, cur);
    } else {
      TaskNet(m.task, op.destination, cur);
      assert MoveNet(m, op.destination, cur) != Net(TaskPostings(m.task), op.destination, cur);
    }
  }

  /** An admitted transfer between ordinary wallets moves on both what its task posts, if and only if its amounts
      match. */
  lemma TransferMatchesExactly(db: Db, op: Op)
    requires op.Transfer? && TransferAdmitted(db, op) && IsCode(PrepareFx(op).value.destCurrency)
    requires !IsSystemAccount(op.source) && !IsSystemAccount(op.destination)
    ensures Matches(TransferMove(db, op), op.source) && Matches(TransferMove(db, op), op.destination) <==>
            AmountsMatch(op)
  {
    if AmountsMatch(op) {
      MatchingTransfer(db, op, op.source);
      MatchingTransfer(db, op, op.destination);
    } else {
      TransferMatchesOnlyIfAmountsMatch(db, op);
    }
  }

  lemma MatchingTransfer(db: Db, op: Op, account: string)
    requires op.Transfer? && TransferAdmitted(db, op) && IsCode(PrepareFx(op).value.destCurrency)
    requires AmountsMatch(op) && !IsSystemAccount(account)
    ensures Matches(TransferMove(db, op), account)
  {
    if op.units == 0 {
      ZeroTransferMatches(db, op, account);
    } else {
      CodesNameSystemAccounts(Normalize(op.currency), "");
      CodesNameSystemAccounts(PrepareFx(op).value.destCurrency, "");
      CodeIsNormal(PrepareFx(op).value.destCurrency);
      hide ScaleOf, ValidateMoney, IsSystemAccount;
      TransferMatchesIfAmountsMatch(db, op, account);
    }
  }

  // ---- conservation over runs ----

  /** The destination currency that a transfer read before its transaction is the wallet's. */
  ghost predicate Fresh(db: Db, op: Op) {
    op.Transfer? && op.destination in db.wallets && op.seenDestination.Some? ==>
      op.seenDestination.value == db.wallets[op.destination].currency
  }

  predicate Transfers(db: Db, op: Op) {
    op.Transfer? && TransferAdmitted(db, op) && Commits(db, TransferMove(db, op))
  }

  /** And the amounts of a transfer that commits match. */
  ghost predicate Exact(db: Db, op: Op) {
    Fresh(db, op) && (Transfers(db, op) ==> AmountsMatch(op))
  }

  ghost predicate ExactRun(ops: seq<Op>) {
    forall i :: 0 <= i < |ops| ==> Exact(Run(EMPTY_DB, ops[..i]), ops[i])
  }

  /** Change of a pot since its wallet was created. */
  function Gain(db: Db, id: string, c: string): int {
    (if id in db.wallets then Pot(db.wallets[id], c) else 0) - (if id in db.created then Pot(db.created[id], c) else 0)
  }

  ghost predicate Inv(db: Db) {
    && db.created.Keys == db.wallets.Keys
    && (forall id :: id in db.wallets ==> IsCode(db.wallets[id].currency))
    && InStep(db)
  }

  /** Pots have moved as the postings of the committed tasks say. */
  ghost predicate InStep(db: Db) {
    forall id, c :: !IsSystemAccount(id) ==> Gain(db, id, c) == NetOfTasks(db.tasks, id, c)
  }

  lemma CommitGain(db: Db, m: Move, id: string, c: string)
    requires Commits(db, m) && db.created.Keys == db.wallets.Keys
    ensures Gain(Commit(db, m), id, c) == Gain(db, id, c) + MoveNet(m, id, c)
  {
  }

  lemma CommitTasks(db: Db, m: Move, id: string, c: string)
    requires Commits(db, m)
    ensures NetOfTasks(Commit(db, m).tasks, id, c) == NetOfTasks(db.tasks, id, c) + Net(TaskPostings(m.task), id, c)
  {
    assert (db.tasks + [m.task])[..|db.tasks|] == db.tasks;
  }

  lemma CodesNameSystemAccounts(c: string, rail: string)
    requires IsCode(c)
    ensures IsSystemAccount(FxPool(c)) && (rail in RAILS ==> IsSystemAccount(Clearing(rail, c)))
  {
  }

  lemma ExchangeMoveMatches(db: Db, op: Op, id: string)
    requires !IsSystemAccount(id) && op.Exchange? && MoveOf(db, op).Some?
    ensures Matches(MoveOf(db, op).value, id)
  {
    CodesNameSystemAccounts(Normalize(op.currency), "");
    CodesNameSystemAccounts(Normalize(op.toCurrency), "");
    TwoSidedMoveMatches(MoveOf(db, op).value, id);
  }

  lemma RailMoveMatches(db: Db, op: Op, id: string)
    requires !IsSystemAccount(id) && (op.Deposit? || op.Withdraw?) && MoveOf(db, op).Some?
    ensures Matches(MoveOf(db, op).value, id)
  {
    var cur := Normalize(op.currency);
    CodesNameSystemAccounts(cur, op.rail);
    OneSidedMoveMatches(MoveOf(db, op).value, id);
  }

  lemma MoveMatches(db: Db, op: Op, id: string)
    requires Inv(db) && Exact(db, op) && !IsSystemAccount(id) && MoveOf(db, op).Some?
    requires Commits(db, MoveOf(db, op).value)
    ensures Matches(MoveOf(db, op).value, id)
  {
    if op.Transfer? {
      TransferCurrencies(db, op);
      hide TransferAdmitted, ScaleOf, Inv;
      MatchingTransfer(db, op, id);
    } else if op.Exchange? {
      ExchangeMoveMatches(db, op, id);
    } else {
      RailMoveMatches(db, op, id);
    }
  }

  lemma ZeroTransferMatches(db: Db, op: Op, account: string)
    requires op.Transfer? && TransferAdmitted(db, op) && AmountsMatch(op) && op.units == 0
    ensures Matches(TransferMove(db, op), account)
  {
    var m := TransferMove(db, op);
    forall c ensures MoveNet(m, account, c) == Net(TaskPostings(m.task), account, c) {
      TaskNet(m.task, account, c);
    }
  }

  lemma TransferCurrencies(db: Db, op: Op)
    requires Inv(db) && Fresh(db, op) && op.Transfer? && TransferAdmitted(db, op)
    ensures IsCode(Normalize(op.currency)) && IsCode(PrepareFx(op).value.destCurrency)
  {
  }

  lemma StepKeepsInv(db: Db, op: Op)
    requires Inv(db) && Exact(db, op)
    ensures Inv(Apply(db, op))
  {
    if MoveOf(db, op).Some? && Commits(db, MoveOf(db, op).value) {
      var m := MoveOf(db, op).value;
      forall id | !IsSystemAccount(id) ensures Matches(m, id) {
        MoveMatches(db, op, id);
      }
      CommitKeepsInv(db, m);
    } else {
      QuietStepKeepsInv(db, op);
    }
  }

  lemma CommitKeepsInv(db: Db, m: Move)
    requires Inv(db) && Commits(db, m)
    requires forall id :: !IsSystemAccount(id) ==> Matches(m, id)
    ensures Inv(Commit(db, m))
  {
    forall id, c | !IsSystemAccount(id) ensures Gain(Commit(db, m), id, c) == NetOfTasks(Commit(db, m).tasks, id, c) {
      assert Matches(m, id);
      CommitGain(db, m, id, c);
      CommitTasks(db, m, id, c);
    }
  }

  lemma QuietStepKeepsInv(db: Db, op: Op)
    requires Inv(db) && (MoveOf(db, op).Some? ==> !Commits(db, MoveOf(db, op).value))
    ensures Inv(Apply(db, op))
  {
    var db' := Apply(db, op);
    forall id, c ensures Gain(db', id, c) == Gain(db, id, c) {
    }
  }

  /** In every exact run, each wallet that does not bear a system account's name holds, in each currency, its initial
      balance plus the credits minus the debits of the postings generated from all committed tasks. */
  lemma {:induction false} EveryRunConserves(ops: seq<Op>)
    requires ExactRun(ops)
    ensures Inv(Run(EMPTY_DB, ops))
  {
    if ops != [] {
      var front := ops[..|ops| - 1];
      forall i | 0 <= i < |front| ensures Exact(Run(EMPTY_DB, front[..i]), front[i]) {
        assert front[..i] == ops[..i];
      }
      EveryRunConserves(front);
      assert Exact(Run(EMPTY_DB, ops[..|ops| - 1]), ops[|ops| - 1]);
      StepKeepsInv(Run(EMPTY_DB, front), ops[|ops| - 1]);
    }
  }

  // ---- transfers keep pots and postings in step exactly when they match ----

  /** Transfers between wallets that do not bear a system account's name, with a fresh destination currency. */
  ghost predicate Ordinary(db: Db, op: Op) {
    Fresh(db, op) && (op.Transfer? ==> !IsSystemAccount(op.source) && !IsSystemAccount(op.destination))
  }

  ghost predicate OrdinaryRun(ops: seq<Op>) {
    forall i :: 0 <= i < |ops| ==> Ordinary(Run(EMPTY_DB, ops[..i]), ops[i])
  }

  ghost predicate InStepThroughout(ops: seq<Op>) {
    forall n :: 0 <= n <= |ops| ==> InStep(Run(EMPTY_DB, ops[..n]))
  }

  /** From a state in step, a transfer that commits without matching leaves it. */
  lemma MismatchLeavesStep(db: Db, op: Op)
    requires Inv(db) && Ordinary(db, op) && Transfers(db, op) && !AmountsMatch(op)
    ensures !InStep(Apply(db, op))
  {
    var m, db' := TransferMove(db, op), Apply(db, op);
    assert db' == Commit(db, m);
    TransferCurrencies(db, op);
    TransferMatchesOnlyIfAmountsMatch(db, op);
    hide Wallets.Apply, Commit, TransferMove, TransferAdmitted, ScaleOf, Normalize, IsSystemAccount, AmountsMatch;
    var id := if Matches(m, op.source) then op.destination else op.source;
    var c :| MoveNet(m, id, c) != Net(TaskPostings(m.task), id, c);
    CommitGain(db, m, id, c);
    CommitTasks(db, m, id, c);
    assert Gain(db, id, c) == NetOfTasks(db.tasks, id, c);
  }

  lemma FrontOfOrdinary(ops: seq<Op>)
    requires ops != []
    ensures OrdinaryRun(ops) ==>
              OrdinaryRun(ops[..|ops| - 1]) && Ordinary(Run(EMPTY_DB, ops[..|ops| - 1]), ops[|ops| - 1])
    ensures ExactRun(ops) <==> ExactRun(ops[..|ops| - 1]) && Exact(Run(EMPTY_DB, ops[..|ops| - 1]), ops[|ops| - 1])
    ensures InStepThroughout(ops) ==> InStepThroughout(ops[..|ops| - 1]) && InStep(Run(EMPTY_DB, ops))
  {
    hide Exact, Ordinary, InStep, Run;
    var front := ops[..|ops| - 1];
    assert forall i :: 0 <= i <= |front| ==> front[..i] == ops[..i];
    assert ops[..|ops|] == ops;
    assert forall i :: 0 <= i < |front| ==> front[i] == ops[i];
    if ExactRun(front) && Exact(Run(EMPTY_DB, front), ops[|ops| - 1]) {
      forall i | 0 <= i < |ops| ensures Exact(Run(EMPTY_DB, ops[..i]), ops[i]) {
        if i < |front| {
          assert Exact(Run(EMPTY_DB, front[..i]), front[i]);
        }
      }
    }
    if ExactRun(ops) {
      assert Exact(Run(EMPTY_DB, ops[..|ops| - 1]), ops[|ops| - 1]);
      forall i | 0 <= i < |front| ensures Exact(Run(EMPTY_DB, front[..i]), front[i]) {
        assert Exact(Run(EMPTY_DB, ops[..i]), ops[i]);
      }
    }
    if OrdinaryRun(ops) {
      assert Ordinary(Run(EMPTY_DB, ops[..|ops| - 1]), ops[|ops| - 1]);
      forall i | 0 <= i < |front| ensures Ordinary(Run(EMPTY_DB, front[..i]), front[i]) {
        assert Ordinary(Run(EMPTY_DB, ops[..i]), ops[i]);
      }
    }
    if InStepThroughout(ops) {
      assert InStep(Run(EMPTY_DB, ops[..|ops|]));
      forall n | 0 <= n <= |front| ensures InStep(Run(EMPTY_DB, front[..n])) {
        assert InStep(Run(EMPTY_DB, ops[..n]));
      }
    }
  }

  lemma ExactPrefix(ops: seq<Op>, n: nat)
    requires ExactRun(ops) && n <= |ops|
    ensures ExactRun(ops[..n])
  {
    hide Exact, Run;
    forall i | 0 <= i < n ensures Exact(Run(EMPTY_DB, ops[..n][..i]), ops[..n][i]) {
      assert ops[..n][..i] == ops[..i];
      assert Exact(Run(EMPTY_DB, ops[..i]), ops[i]);
    }
  }

  /** Every pot stays in step with the postings of the committed tasks, at every moment of a run of ordinary
      transfers and any other operations, if and only if the amounts of every transfer that commits match. */
  lemma {:induction false} InStepExactlyIfTransfersMatch(ops: seq<Op>)
    requires OrdinaryRun(ops)
    ensures InStepThroughout(ops) <==> ExactRun(ops)
  {
    hide Apply, Exact, Ordinary, InStep;
    if ExactRun(ops) {
      forall n | 0 <= n <= |ops| ensures InStep(Run(EMPTY_DB, ops[..n])) {
        ExactPrefix(ops, n);
        EveryRunConserves(ops[..n]);
      }
    } else {
      var front, op := ops[..|ops| - 1], ops[|ops| - 1];
      FrontOfOrdinary(ops);
      InStepExactlyIfTransfersMatch(front);
      if InStepThroughout(ops) {
        EveryRunConserves(front);
        LastIsExact(Run(EMPTY_DB, front), op);
      }
    }
  }

  lemma LastIsExact(db: Db, op: Op)
    requires Inv(db) && Ordinary(db, op) && InStep(Apply(db, op))
    ensures Exact(db, op)
  {
    hide Wallets.Apply, Inv, InStep, IsSystemAccount, AmountsMatch;
    if Transfers(db, op) && !AmountsMatch(op) {
      MismatchLeavesStep(db, op);
    }
  }

  /** A transfer of no units, only nanos, under a quote the FX service answers with an amount of its own: B is credited,
      A is not debited, and the ledger refuses the task. */
  function Drifting(target: int): seq<Op> {
    [Create("A", "USD", 0, "TIER_1"), Create("B", "USD", 0, "TIER_1"),
     Transfer("k", "A", "B", "USD", 0, 1, 2, "q", Some("USD"), true, Converted(target), "t", 0, 0)]
  }

  lemma UnmatchedTransferDrifts(target: int)
    requires target > 0
    ensures var db := Run(EMPTY_DB, Drifting(target));
            && "A" in db.wallets && "B" in db.wallets
            && Gain(db, "B", "USD") == target && NetOfTasks(db.tasks, "B", "USD") == 0
            && Gain(db, "A", "USD") == 0 && |db.tasks| == 1 && !LedgerPods.Wellformed(db.tasks[0])
  {
    var ops := Drifting(target);
    PlainNames();
    CreatePlain(EMPTY_DB, "A", "USD", 0, "TIER_1");
    var one := Apply(EMPTY_DB, ops[0]);
    CreatePlain(one, "B", "USD", 0, "TIER_1");
    var two := Apply(one, ops[1]);
    DriftingTransfer(two, ops[2], target);
    hide Wallets.Apply, Trim, KycTier, TransferMove, Commit, Commits, Net;
    RunOfThree(ops[0], ops[1], ops[2]);
    var m := TransferMove(two, ops[2]);
    CommitGain(two, m, "A", "USD");
    CommitGain(two, m, "B", "USD");
    CommitTasks(two, m, "B", "USD");
    CommittedWrites(two, m);
  }

  lemma CommittedWrites(db: Db, m: Move)
    requires Commits(db, m)
    ensures Commit(db, m).tasks == db.tasks + [m.task] && Commit(db, m).wallets.Keys == db.wallets.Keys
  {
  }

  lemma DriftingTransfer(db: Db, op: Op, target: int)
    requires target > 0 && op == Drifting(target)[2]
    requires var w := Wallet("USD", 0, map["USD" := 0], Active, "TIER_1");
             db == EMPTY_DB.(wallets := map["A" := w, "B" := w], created := map["A" := w, "B" := w])
    ensures TransferAdmitted(db, op) && Apply(db, op) == Commit(db, TransferMove(db, op))
            && Commits(db, TransferMove(db, op))
    ensures var m := TransferMove(db, op);
            && MoveNet(m, "A", "USD") == 0 && MoveNet(m, "B", "USD") == target
            && TaskPostings(m.task) == [] && !LedgerPods.Wellformed(m.task)
  {
    CodeIsNormal("USD");
    assert PrepareFx(op) == Some(Prepared("USD", target, false));
  }

  // ---- wallets that bear a system account's name ----

  lemma RunOfThree(a: Op, b: Op, c: Op)
    ensures Run(EMPTY_DB, [a, b, c]) == Apply(Apply(Apply(EMPTY_DB, a), b), c)
  {
    var ops := [a, b, c];
    assert ops[..2] == [a, b] && ops[..2][..1] == [a] && ops[..2][..1][..0] == [];
    assert Run(EMPTY_DB, [a]) == Apply(EMPTY_DB, a);
    assert Run(EMPTY_DB, [a, b]) == Apply(Apply(EMPTY_DB, a), b);
  }

  /** Two wallets in one currency, the second holding one unit. */
  lemma TwoWallets(id: string, c: string) returns (db: Db)
    requires IsCode(c) && id != "" && id != "A" && !IsSpace(id[0])
    ensures db == Apply(Apply(EMPTY_DB, Create(id, c, 0, "TIER_1")), Create("A", c, 1, "TIER_1"))
    ensures db.wallets ==
            map[id := Wallet(c, 0, map[c := 0], Active, "TIER_1"), "A" := Wallet(c, 1, map[c := 1], Active, "TIER_1")]
    ensures db.created == db.wallets && db.tasks == [] && db.idempotency == map[]
  {
    CodeIsNormal(c);
    TrimKeepsInk(id);
    PlainNames();
    db := Apply(Apply(EMPTY_DB, Create(id, c, 0, "TIER_1")), Create("A", c, 1, "TIER_1"));
  }

  /** A third step whose task posts to id, while no leg of its movement touches id. */
  lemma ThirdStepBreaks(a: Op, b: Op, op: Op, m: Move, id: string, c: string)
    requires !a.Transfer? && !b.Transfer? && !op.Transfer?
    requires var db := Apply(Apply(EMPTY_DB, a), b);
             && id in db.wallets && db.created == db.wallets && db.tasks == []
             && Commits(db, m) && Apply(db, op) == Commit(db, m)
    requires MoveNet(m, id, c) == 0 && Net(TaskPostings(m.task), id, c) != 0
    ensures var db := Run(EMPTY_DB, [a, b, op]);
            ExactRun([a, b, op]) && id in db.wallets && Gain(db, id, c) != NetOfTasks(db.tasks, id, c)
  {
    hide Wallets.Apply, TransferAdmitted, Commits, Net;
    RunOfThree(a, b, op);
    var db := Apply(Apply(EMPTY_DB, a), b);
    CommitGain(db, m, id, c);
    CommitTasks(db, m, id, c);
  }

  lemma ClearingAccountBreaks(rail: string, c: string) returns (ops: seq<Op>)
    requires rail in RAILS && IsCode(c)
    ensures var id := Clearing(rail, c); var db := Run(EMPTY_DB, ops);
            ExactRun(ops) && id in db.wallets && Gain(db, id, c) != NetOfTasks(db.tasks, id, c)
  {
    var id := Clearing(rail, c);
    assert |id| > 1;
    var dep := Deposit("k", "A", rail, c, 1, 0, 0, "t");
    ops := [Create(id, c, 0, "TIER_1"), Create("A", c, 1, "TIER_1"), dep];
    var db := TwoWallets(id, c);
    CodeIsNormal(c);
    var m := MoveOf(db, dep).value;
    TaskNet(m.task, id, c);
    ThirdStepBreaks(ops[0], ops[1], dep, m, id, c);
  }

  lemma PoolAccountBreaks(c: string, to: string) returns (ops: seq<Op>)
    requires IsCode(c) && IsCode(to) && c != to
    ensures var id := FxPool(c); var db := Run(EMPTY_DB, ops);
            ExactRun(ops) && id in db.wallets && Gain(db, id, c) != NetOfTasks(db.tasks, id, c)
  {
    hide Wallets.Apply, Wallets.Run, MoveOf, Commit, Commits, ScaleOf, Normalize, Net, NetOfTasks, Gain;
    var id := FxPool(c);
    assert |id| > 1;
    var exch := Exchange("k", "A", c, 1, to, 1, "t", 0);
    ops := [Create(id, c, 0, "TIER_1"), Create("A", c, 1, "TIER_1"), exch];
    var db := TwoWallets(id, c);
    var m := ExchangeOfOneUnit(db, exch, c, to);
    CodeIsNormal(c);
    CodeIsNormal(to);
    ExchangeNetOfPool(m.task, c, to);
    ThirdStepBreaks(ops[0], ops[1], exch, m, id, c);
  }

  lemma ExchangeOfOneUnit(db: Db, exch: Op, c: string, to: string) returns (m: Move)
    requires IsCode(c) && IsCode(to) && c != to && exch == Exchange("k", "A", c, 1, to, 1, "t", 0)
    requires db.tasks == [] && db.idempotency == map[] && "A" in db.wallets && Pot(db.wallets["A"], c) >= 1
    ensures Commits(db, m) && Wallets.Apply(db, exch) == Commit(db, m)
    ensures m.debit == Some(Change("A", c, 1)) && m.credit == Some(Change("A", to, 1))
    ensures m.task == LedgerPods.Request("t", "k", "A", "A", 1, c, 1, to)
  {
    CodeIsNormal(c);
    CodeIsNormal(to);
    m := MoveOf(db, exch).value;
  }

  lemma ExchangeNetOfPool(t: Task, c: string, to: string)
    requires t.source == "A" && t.destination == "A" && t.amount == 1 && t.currency == c && t.destAmount == 1
    requires t.destCurrency == to && to != c && c != "" && to != ""
    ensures Net(TaskPostings(t), FxPool(c), c) == 1
  {
    NetOfLegs(TaskPostings(t), FxPool(c), c);
    assert |FxPool(c)| > 1;
  }

  /** Conservation at a wallet name, over all exact runs and currencies. */
  ghost predicate ConservedAt(id: string) {
    forall ops, c :: ExactRun(ops) ==>
      var db := Run(EMPTY_DB, ops); id in db.wallets ==> Gain(db, id, c) == NetOfTasks(db.tasks, id, c)
  }

  /** A wallet name conserves in every exact run if and only if it is not the name of a system account. */
  lemma ConservedExactlyOffSystemAccounts(id: string)
    ensures ConservedAt(id) <==> !IsSystemAccount(id)
  {
    if !IsSystemAccount(id) {
      forall ops, c | ExactRun(ops)
        ensures var db := Run(EMPTY_DB, ops); id in db.wallets ==> Gain(db, id, c) == NetOfTasks(db.tasks, id, c)
      {
        EveryRunConserves(ops);
      }
    } else if c :| IsCode(c) && id == FxPool(c) {
      var ops := PoolAccountBreaks(c, if c == "USD" then "EUR" else "USD");
      assert ExactRun(ops);
    } else {
      var r, c :| r in RAILS && IsCode(c) && id == Clearing(r, c);
      var ops := ClearingAccountBreaks(r, c);
      assert ExactRun(ops);
    }
  }
}
