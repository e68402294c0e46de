/** What a replayed exchange, deposit or withdrawal can do to the ledger: it dispatches a task built from the repeated
    request, with a new transaction id, which was never committed (cmd/wallet-service/main.go:1431, 1662, 1897). */
module ReplayedTasks {
  import opened Hashing
  import opened Currency
  import opened AuditChain
  import LedgerPods
  import opened Wallets
  import opened Outbox

  /** Transaction ids are 24 lower-case hexadecimal digits. */
  predicate IsTxId(s: string) {
    LedgerPods.IsObjectId(s) && Lower(s) == s
  }

  predicate IsReplay(s: System, op: Op) {
    (op.Exchange? || op.Deposit? || op.Withdraw?) && op.key in s.db.idempotency && MoveOf(s.db, op).Some?
  }

  /** The rebuilt task bears a transaction id that neither the committed task nor any entry has. */
  ghost predicate HasNewId(s: System, op: Op, i: nat)
    requires IsReplay(s, op) && i < |s.db.tasks|
  {
    var t := MoveOf(s.db, op).value.task;
    && IsTxId(t.txId) && IsTxId(s.db.tasks[i].txId) && t.txId != s.db.tasks[i].txId
    && forall j :: 0 <= j < |s.ledger.docs| ==> s.ledger.docs[j].id != t.txId
  }

  // ---- the replay's task overtakes the committed one ----

  function Overtaking(w: nat, h: nat): seq<Step> {
    [Send(w, h), Serve(h, "", 0, false), Outbox.Insert(h)]
  }

  lemma {:induction false} RunConcat(sha: Sha, s: System, xs: seq<Step>, ys: seq<Step>)
    ensures Outbox.Run(sha, s, xs + ys) == Outbox.Run(sha, Outbox.Run(sha, s, xs), ys)
  {
    hide Outbox.Apply;
    if ys == [] {
      assert xs + ys == xs;
    } else {
      RunConcat(sha, s, xs, ys[..|ys| - 1]);
      assert (xs + ys)[..|xs + ys| - 1] == xs + ys[..|ys| - 1];
    }
  }

  lemma RunOfOne(sha: Sha, s: System, a: Step)
    ensures Outbox.Run(sha, s, [a]) == Outbox.Apply(sha, s, a)
  {
    assert [a][..0] == [];
  }

  lemma RunOfThree(sha: Sha, s: System, a: Step, b: Step, c: Step)
    ensures Outbox.Run(sha, s, [a, b, c]) == Outbox.Apply(sha, Outbox.Apply(sha, Outbox.Apply(sha, s, a), b), c)
  {
    hide Outbox.Apply;
    var steps := [a, b, c];
    assert steps[..2] == [a, b] && steps[..2][..1] == [a] && steps[..1][..0] == [];
    assert Outbox.Run(sha, s, [a]) == Outbox.Apply(sha, s, a);
    assert Outbox.Run(sha, s, [a, b]) == Outbox.Apply(sha, Outbox.Apply(sha, s, a), b);
  }

  /** A worker's request, served at once by a new handler. */
  lemma OvertakingRun(sha: Sha, s: System, w: nat, d: LedgerDocument, h: nat)
    requires w in s.workers && h !in s.handlers && Servable(s.workers[w].req)
    requires var t, link := s.workers[w].req, LedgerPods.NextLink(s.ledger.docs, false);
             d == LedgerPods.NewDocument(sha, t, LedgerPods.DocId(t.txId, ""), link.0, link.1, 0)
    requires LedgerPods.Insertable(s.ledger.docs, d)
    ensures var s' := Outbox.Run(sha, s, Overtaking(w, h));
            s'.db == s.db && s'.ledger.docs == s.ledger.docs + [d] && s'.workers == s.workers && s'.marks == s.marks
  {
    hide LedgerPods.NextLink, LedgerPods.NewDocument, LedgerPods.Insertable, LedgerPods.Wellformed,
        LedgerPods.HasPostings, LedgerPods.DocId;
    var s2 := s.(handlers := s.handlers[h := s.workers[w].req]);
    var s3 := s2.(ledger := s.ledger.(pods := s.ledger.pods[h := d]));
    assert Outbox.Apply(sha, s, Send(w, h)) == s2;
    assert Outbox.Apply(sha, s2, Serve(h, "", 0, false)) == s3;
    RunOfThree(sha, s, Send(w, h), Serve(h, "", 0, false), Outbox.Insert(h));
  }

  lemma HeadIsInsertable(sha: Sha, s: LedgerPods.State, d: LedgerDocument)
    requires LedgerPods.Inv(sha, s) && !HasKey(s.docs, d.key) && d.sequence == LedgerPods.NextLink(s.docs, false).0
    requires forall j :: 0 <= j < |s.docs| ==> s.docs[j].id != d.id
    ensures LedgerPods.Insertable(s.docs, d)
  {
    LedgerPods.NextLinkContinues(sha, s.docs, false);
    forall j | 0 <= j < |s.docs| ensures s.docs[j].sequence != d.sequence {
      ChainLinks(sha, s.docs, j);
    }
  }

  lemma NewHandler(handlers: map<nat, Task>) returns (h: nat)
    ensures h !in handlers
  {
    h := Above(handlers.Keys);
  }

  lemma {:induction false} Above(xs: set<nat>) returns (h: nat)
    ensures forall x :: x in xs ==> x < h
    decreases xs
  {
    if xs == {} {
      h := 0;
    } else {
      var x :| x in xs;
      var rest := Above(xs - {x});
      h := if x < rest then rest else x + 1;
      assert forall y :: y in xs && y != x ==> y in xs - {x};
    }
  }

  /** One more entry, which carries t and not the i-th task, whose key it has. */
  ghost predicate Overtaken(s: System, after: System, t: Task, i: nat)
    requires i < |s.db.tasks|
  {
    && after.db == s.db && |after.ledger.docs| == |s.ledger.docs| + 1
    && var d := after.ledger.docs[|s.ledger.docs|];
       after.ledger.docs == s.ledger.docs + [d] && d.key == s.db.tasks[i].key && Carries(d, t)
           && !Carries(d, s.db.tasks[i])
  }

  /** While the ledger has no entry of the key, a dispatched replay that the ledger would accept can make one that does
      not carry the committed task. */
  lemma OvertakingEntry(sha: Sha, s: System, op: Op, i: nat, w: nat) returns (steps: seq<Step>)
    requires Outbox.Inv(sha, s) && IsReplay(s, op) && i < |s.db.tasks| && s.db.tasks[i].key == op.key
             && HasNewId(s, op, i)
    requires !HarmlessReplay(s, op)
    ensures forall k :: 0 <= k < |steps| ==> !steps[k].DispatchReplay?
    ensures Overtaken(s, Outbox.Run(sha, Outbox.Apply(sha, s, DispatchReplay(w, op)), steps),
                      MoveOf(s.db, op).value.task, i)
  {
    var t := MoveOf(s.db, op).value.task;
    var s' := Outbox.Apply(sha, s, DispatchReplay(w, op));
    assert s' == s.(workers := s.workers[w := Worker(Replay, t)]);
    TaskHasKey(s.db, op);
    hide MoveOf, Outbox.Apply;
    var h := NewHandler(s.handlers);
    var link := LedgerPods.NextLink(s.ledger.docs, false);
    var d := LedgerPods.NewDocument(sha, t, LedgerPods.DocId(t.txId, ""), link.0, link.1, 0);
    ServedDocumentCarries(sha, t, "", link.0, link.1, 0);
    HeadIsInsertable(sha, s.ledger, d);
    hide LedgerPods.NextLink, LedgerPods.NewDocument, LedgerPods.DocId, LedgerPods.Insertable;
    OvertakingRun(sha, s', w, d, h);
    steps := Overtaking(w, h);
  }

  // ---- exactly when a replay is safe ----

  /** Whatever happens after the replay, as long as no other replay of the key does harm, every entry of the key carries
      the committed task. */
  ghost predicate ReplayIsSafe(sha: Sha, s: System, op: Op, i: nat, w: nat)
    requires i < |s.db.tasks|
  {
    var s' := Outbox.Apply(sha, s, DispatchReplay(w, op));
    forall steps :: HarmlessReplays(sha, s', steps, s.db.tasks[i].key) ==> CarriedAt(Outbox.Run(sha, s', steps), i)
  }

  /** From any state reached so far without harm to the key, a replay with a new transaction id is safe if and only
      if the ledger already has an entry of the key, or would refuse the rebuilt task. */
  lemma ReplayIsSafeExactlyIfHarmless(sha: Sha, s: System, op: Op, i: nat, w: nat)
    requires IsSha(sha) && Outbox.Inv(sha, s) && IsReplay(s, op) && FaithfulAt(s, op.key)
    requires i < |s.db.tasks| && s.db.tasks[i].key == op.key && HasNewId(s, op, i)
    ensures ReplayIsSafe(sha, s, op, i, w) <==> HarmlessReplay(s, op)
  {
    var s' := Outbox.Apply(sha, s, DispatchReplay(w, op));
    if HarmlessReplay(s, op) {
      forall steps | HarmlessReplays(sha, s', steps, op.key) ensures CarriedAt(Outbox.Run(sha, s', steps), i) {
        HarmlessContinuation(sha, s, op, i, w, steps);
      }
    } else {
      var steps := OvertakingEntry(sha, s, op, i, w);
      hide MoveOf, Outbox.Apply, Carries, Outbox.Inv, FaithfulAt, HarmlessReplay;
      assert HarmlessReplays(sha, s', steps, op.key) by {
        assert forall k :: 0 <= k < |steps| ==> HarmlessAt(sha, s', steps, op.key, k);
      }
      assert !CarriedAt(Outbox.Run(sha, s', steps), i);
    }
  }

  lemma HarmlessContinuation(sha: Sha, s: System, op: Op, i: nat, w: nat, steps: seq<Step>)
    requires IsSha(sha) && Outbox.Inv(sha, s) && IsReplay(s, op) && FaithfulAt(s, op.key) && HarmlessReplay(s, op)
    requires i < |s.db.tasks| && s.db.tasks[i].key == op.key
    requires HarmlessReplays(sha, Outbox.Apply(sha, s, DispatchReplay(w, op)), steps, op.key)
    ensures CarriedAt(Outbox.Run(sha, Outbox.Apply(sha, s, DispatchReplay(w, op)), steps), i)
  {
    var s' := Outbox.Apply(sha, s, DispatchReplay(w, op));
    Outbox.StepKeepsInv(sha, s, DispatchReplay(w, op));
    StepStaysFaithful(sha, s, DispatchReplay(w, op), op.key);
    TasksStay(sha, s, DispatchReplay(w, op));
    hide Outbox.Inv, FaithfulAt, Outbox.Apply, HarmlessReplays;
    RunKeepsInv(sha, s', steps);
    RunStaysFaithful(sha, s', steps, op.key);
    FaithfulIsCarried(sha, Outbox.Run(sha, s', steps), i);
  }

  // ---- a run in which it happens ----

  lemma DepositOf(db: Db, units: int, txId: string)
    requires units > 0
    ensures var t := LedgerPods.Request(txId, "k", Clearing("CARD", "USD"), "A", units, "USD", 0, "");
            && MoveOf(db, Deposit("k", "A", "CARD", "USD", units, 0, 0, txId))
               == Some(Move(None, Some(Change("A", "USD", units)), t, None))
            && Servable(t)
  {
    CodeIsNormal("USD");
  }

  lemma OneDeposit(txId: string) returns (db: Db)
    ensures db ==
            Wallets.Apply(Wallets.Apply(EMPTY_DB, Create("A", "USD", 0, "TIER_1")),
                          Deposit("k", "A", "CARD", "USD", 1, 0, 0, txId))
    ensures db.tasks == [LedgerPods.Request(txId, "k", Clearing("CARD", "USD"), "A", 1, "USD", 0, "")]
    ensures db.idempotency == map["k" := txId]
  {
    CodeIsNormal("USD");
    PlainNames();
    CreatePlain(EMPTY_DB, "A", "USD", 0, "TIER_1");
    hide Wallets.Apply, Normalize, ScaleOf, Trim, KycTier, MoveOf;
    var created := Wallets.Apply(EMPTY_DB, Create("A", "USD", 0, "TIER_1"));
    DepositCommits(created, txId);
    db := Wallets.Apply(created, Deposit("k", "A", "CARD", "USD", 1, 0, 0, txId));
  }

  lemma DepositCommits(db: Db, txId: string)
    requires "A" in db.wallets && db.tasks == [] && db.idempotency == map[]
    ensures var db' := Wallets.Apply(db, Deposit("k", "A", "CARD", "USD", 1, 0, 0, txId));
            && db'.tasks == [LedgerPods.Request(txId, "k", Clearing("CARD", "USD"), "A", 1, "USD", 0, "")]
            && db'.idempotency == map["k" := txId]
  {
    DepositOf(db, 1, txId);
    hide Normalize, ScaleOf, MoveOf, Clearing, Servable;
  }

  /** One unit is deposited under a key; the same key repeated with two units puts two units into the ledger. */
  lemma ReplayPostsAnotherAmount(sha: Sha, first: string, second: string) returns (steps: seq<Step>)
    requires IsSha(sha) && IsTxId(first) && IsTxId(second) && first != second
    ensures var s := Outbox.Run(sha, EMPTY_SYSTEM, steps);
            && |s.db.tasks| == 1 && |s.ledger.docs| == 1 && s.ledger.docs[0].key == s.db.tasks[0].key
            && s.db.tasks[0].amount == 1 && s.ledger.docs[0].amount == 2
  {
    var opening :=
        [WalletStep(Create("A", "USD", 0, "TIER_1")), WalletStep(Deposit("k", "A", "CARD", "USD", 1, 0, 0, first))];
    var again := Deposit("k", "A", "CARD", "USD", 2, 0, 0, second);
    var db := OneDeposit(first);
    EveryRunDelivers(sha, opening);
    RunOfTwo(sha, opening[0], opening[1]);
    DepositOf(db, 2, second);
    hide MoveOf, Outbox.Run, Outbox.Inv, IsTxId, Outbox.Apply, Servable;
    var s := Outbox.Run(sha, EMPTY_SYSTEM, opening);
    var rest := OvertakingEntry(sha, s, again, 0, 0);
    var s' := Outbox.Apply(sha, s, DispatchReplay(0, again));
    RunOfOne(sha, s, DispatchReplay(0, again));
    RunConcat(sha, s, [DispatchReplay(0, again)], rest);
    RunConcat(sha, EMPTY_SYSTEM, opening, [DispatchReplay(0, again)] + rest);
    steps := opening + ([DispatchReplay(0, again)] + rest);
  }

  lemma RunOfTwo(sha: Sha, a: Step, b: Step)
    requires a.WalletStep? && b.WalletStep?
    ensures var s := Outbox.Run(sha, EMPTY_SYSTEM, [a, b]);
            && s.db == Wallets.Apply(Wallets.Apply(EMPTY_DB, a.op), b.op)
            && s.ledger == LedgerPods.EMPTY && s.handlers == map[]
  {
    hide Wallets.Apply;
    assert [a, b][..1] == [a] && [a][..0] == [];
    assert Outbox.Run(sha, EMPTY_SYSTEM, [a]) == Outbox.Apply(sha, EMPTY_SYSTEM, a);
  }
}
