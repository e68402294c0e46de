/** Delivery is always possible: no reachable state keeps a committed task from the ledger
    (cmd/wallet-service/ledger_outbox.go:393-425, 507-570; cmd/ledger-service/main.go:199-282). */
module Delivery {
  import opened Hashing
  import LedgerPods
  import opened Outbox
  import opened ReplayedTasks

  /** The i-th task has its entry, which carries it, and is completed. */
  ghost predicate IsDelivered(s: System, i: nat) {
    && CarriedAt(s, i) && HasKey(s.ledger.docs, s.db.tasks[i].key)
    && i < |s.marks| && s.marks[i].status.Completed?
  }

  /** From any reachable state, whatever failed before and whoever is at work, a committed task that the ledger
      accepts can be delivered in a few steps. */
  lemma EveryTaskCanBeDelivered(sha: Sha, s: System, i: nat) returns (steps: seq<Step>)
    requires IsSha(sha) && Outbox.Inv(sha, s) && i < |s.db.tasks| && FaithfulAt(s, s.db.tasks[i].key)
    requires Servable(s.db.tasks[i]) && IsTxId(s.db.tasks[i].txId)
    requires forall j :: 0 <= j < |s.ledger.docs| && s.ledger.docs[j].id == s.db.tasks[i].txId ==>
               s.ledger.docs[j].key == s.db.tasks[i].key
    ensures (forall k :: 0 <= k < |steps| ==> !steps[k].DispatchReplay?) && IsDelivered(Outbox.Run(sha, s, steps), i)
  {
    var t, w := s.db.tasks[i], 0;
    var s1 := Outbox.Apply(sha, s, DispatchImmediate(w, i));
    assert s1 == s.(workers := s.workers[w := Worker(Immediate(i), t)]);
    RunOfOne(sha, s, DispatchImmediate(w, i));
    hide Outbox.Apply, Outbox.Inv, FaithfulAt, Servable, IsTxId;
    var middle := [];
    if !HasKey(s.ledger.docs, t.key) {
      middle := Post(sha, s1, w);
    }
    var s2 := Outbox.Run(sha, s1, middle);
    RunConcat(sha, s, [DispatchImmediate(w, i)], middle);
    RunConcat(sha, s, [DispatchImmediate(w, i)] + middle, [Succeeded(w)]);
    RunOfOne(sha, s2, Succeeded(w));
    steps := [DispatchImmediate(w, i)] + middle + [Succeeded(w)];
    SuccessIsMarked(sha, s2, w, i);
    StaysCarried(sha, s, steps, i);
  }

  /** A new handler serves a worker's request at once. */
  lemma Post(sha: Sha, s: System, w: nat) returns (steps: seq<Step>)
    requires w in s.workers && LedgerPods.Inv(sha, s.ledger) && Servable(s.workers[w].req)
             && IsTxId(s.workers[w].req.txId)
    requires !HasKey(s.ledger.docs, s.workers[w].req.key)
    requires forall j :: 0 <= j < |s.ledger.docs| && s.ledger.docs[j].id == s.workers[w].req.txId ==>
               s.ledger.docs[j].key == s.workers[w].req.key
    ensures forall k :: 0 <= k < |steps| ==> !steps[k].DispatchReplay?
    ensures var s' := Outbox.Run(sha, s, steps);
            s'.db == s.db && s'.workers == s.workers && s'.marks == s.marks
                && HasKey(s'.ledger.docs, s.workers[w].req.key)
  {
    var t, docs := s.workers[w].req, s.ledger.docs;
    var h := NewHandler(s.handlers);
    var link := LedgerPods.NextLink(docs, false);
    var d := LedgerPods.NewDocument(sha, t, LedgerPods.DocId(t.txId, ""), link.0, link.1, 0);
    ServedDocumentCarries(sha, t, "", link.0, link.1, 0);
    HeadIsInsertable(sha, s.ledger, d);
    hide LedgerPods.NextLink, LedgerPods.NewDocument, LedgerPods.DocId, LedgerPods.Insertable;
    OvertakingRun(sha, s, w, d, h);
    steps := Overtaking(w, h);
    assert (docs + [d])[|docs|].key == t.key;
  }

  /** A success completes the worker's task, a failure of the relay counts against it. */
  lemma SuccessIsMarked(sha: Sha, s: System, w: nat, i: nat)
    requires w in s.workers && s.workers[w].origin == Immediate(i) && i < |s.marks|
    requires HasKey(s.ledger.docs, s.workers[w].req.key)
    ensures var s' := Outbox.Apply(sha, s, Succeeded(w));
            s'.marks == s.marks[i := Mark(Completed, s.marks[i].retries)] && s'.ledger == s.ledger && s'.db == s.db
  {
  }

  /** What a relay writes after one dispatch: completed, or one more retry and failed at the fifth it has read. */
  lemma RelayMarks(sha: Sha, s: System, w: nat, i: nat, retries: nat)
    requires w in s.workers && s.workers[w].origin == Relay(i, retries) && i < |s.marks|
    ensures Outbox.Apply(sha, s, NotSucceeded(w)).marks
            == s.marks[i := Mark(if retries >= 4 then Failed else s.marks[i].status, s.marks[i].retries + 1)]
    ensures HasKey(s.ledger.docs, s.workers[w].req.key) ==>
              Outbox.Apply(sha, s, Succeeded(w)).marks == s.marks[i := Mark(Completed, s.marks[i].retries)]
  {
  }

  lemma StaysCarried(sha: Sha, s: System, steps: seq<Step>, i: nat)
    requires IsSha(sha) && Outbox.Inv(sha, s) && i < |s.db.tasks| && FaithfulAt(s, s.db.tasks[i].key)
    requires forall k :: 0 <= k < |steps| ==> !steps[k].DispatchReplay?
    ensures CarriedAt(Outbox.Run(sha, s, steps), i) && Outbox.Run(sha, s, steps).db.tasks[i] == s.db.tasks[i]
  {
    assert forall k :: 0 <= k < |steps| ==> HarmlessAt(sha, s, steps, s.db.tasks[i].key, k);
    hide Outbox.Inv, FaithfulAt, Outbox.Apply, HarmlessAt, CarriedAt;
    RunKeepsInv(sha, s, steps);
    RunStaysFaithful(sha, s, steps, s.db.tasks[i].key);
    FaithfulIsCarried(sha, Outbox.Run(sha, s, steps), i);
  }
}
