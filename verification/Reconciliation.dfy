/** Wallet pots against the entries of the ledger, end to end. */
module Reconciliation {
  import opened Hashing
  import opened Encoding
  import opened AuditChain
  import LedgerPods
  import opened Wallets
  import opened Conservation
  import opened Outbox

  /** Net effect of the tasks whose key has no entry yet. */
  function Missing(tasks: seq<Task>, docs: seq<LedgerDocument>, account: string, c: string): int {
    if tasks == [] then 0
    else
      var last := tasks[|tasks| - 1];
      Missing(tasks[..|tasks| - 1], docs, account, c)
      + if HasKey(docs, last.key) then 0 else Net(TaskPostings(last), account, c)
  }

  lemma {:induction false} NetConcat(xs: seq<Posting>, ys: seq<Posting>, account: string, c: string)
    ensures Net(xs + ys, account, c) == Net(xs, account, c) + Net(ys, account, c)
  {
    if xs == [] {
      assert xs + ys == ys;
    } else {
      NetConcat(xs[1..], ys, account, c);
      assert (xs + ys)[1..] == xs[1..] + ys;
    }
  }

  lemma {:induction false} AllMissing(tasks: seq<Task>, account: string, c: string)
    ensures Missing(tasks, [], account, c) == NetOfTasks(tasks, account, c)
  {
    if tasks != [] {
      AllMissing(tasks[..|tasks| - 1], account, c);
    }
  }

  lemma {:induction false} NoneMissing(tasks: seq<Task>, docs: seq<LedgerDocument>, account: string, c: string)
    requires forall i :: 0 <= i < |tasks| ==> HasKey(docs, tasks[i].key)
    ensures Missing(tasks, docs, account, c) == 0
  {
    if tasks != [] {
      NoneMissing(tasks[..|tasks| - 1], docs, account, c);
    }
  }

  lemma HasKeyOfLonger(docs: seq<LedgerDocument>, d: LedgerDocument, key: string)
    ensures HasKey(docs + [d], key) <==> HasKey(docs, key) || d.key == key
  {
    var longer := docs + [d];
    assert longer[|docs|] == d;
    if HasKey(docs, key) {
      var i :| 0 <= i < |docs| && docs[i].key == key;
      assert longer[i].key == key;
    }
  }

  lemma {:induction false} OtherEntryKeepsMissing(tasks: seq<Task>, docs: seq<LedgerDocument>, d: LedgerDocument,
                                                  account: string, c: string)
    requires forall i :: 0 <= i < |tasks| ==> tasks[i].key != d.key
    ensures Missing(tasks, docs + [d], account, c) == Missing(tasks, docs, account, c)
  {
    if tasks != [] {
      OtherEntryKeepsMissing(tasks[..|tasks| - 1], docs, d, account, c);
      HasKeyOfLonger(docs, d, tasks[|tasks| - 1].key);
    }
  }

  /** A new entry takes exactly its own postings out of what is missing. */
  lemma {:induction false} EntryTakesItsPostings(tasks: seq<Task>, docs: seq<LedgerDocument>, d: LedgerDocument,
                                                 k: nat, account: string, c: string)
    requires TaskKeysUnique(tasks) && k < |tasks| && Carries(d, tasks[k]) && !HasKey(docs, d.key)
    ensures Missing(tasks, docs + [d], account, c) == Missing(tasks, docs, account, c) - Net(d.postings, account, c)
  {
    hide LedgerPods.HasPostings, LedgerPods.Legs;
    var front, last := tasks[..|tasks| - 1], tasks[|tasks| - 1];
    HasKeyOfLonger(docs, d, last.key);
    if k == |tasks| - 1 {
      OtherEntryKeepsMissing(front, docs, d, account, c);
    } else {
      EntryTakesItsPostings(front, docs, d, k, account, c);
    }
  }

  lemma {:induction false} Reconciles(tasks: seq<Task>, docs: seq<LedgerDocument>, account: string, c: string)
    requires TaskKeysUnique(tasks) && LedgerPods.UniqueKeysAndIds(docs)
    requires forall i :: 0 <= i < |docs| ==> Posted(tasks, docs[i])
    ensures NetOfTasks(tasks, account, c) == Net(AllPostings(docs), account, c) + Missing(tasks, docs, account, c)
  {
    if docs == [] {
      AllMissing(tasks, account, c);
    } else {
      var front, d := docs[..|docs| - 1], docs[|docs| - 1];
      Reconciles(tasks, front, account, c);
      assert Posted(tasks, d);
      var k :| 0 <= k < |tasks| && Carries(d, tasks[k]);
      assert !HasKey(front, d.key);
      hide Carries, Posted, HasKey, NetOfTasks, Missing, Net;
      EntryTakesItsPostings(tasks, front, d, k, account, c);
      assert docs == front + [d];
      NetConcat(AllPostings(front), d.postings, account, c);
    }
  }

  // ---- the wallet side of a system run ----

  function WalletOps(steps: seq<Step>): seq<Op> {
    if steps == [] then []
    else
      var last, front := steps[|steps| - 1], WalletOps(steps[..|steps| - 1]);
      if last.WalletStep? then front + [last.op] else front
  }

  lemma {:induction false} SystemRunsWallets(sha: Sha, steps: seq<Step>)
    ensures Outbox.Run(sha, EMPTY_SYSTEM, steps).db == Wallets.Run(EMPTY_DB, WalletOps(steps))
  {
    hide Wallets.Apply, LedgerPods.Apply, MoveOf;
    if steps != [] {
      var front := steps[..|steps| - 1];
      SystemRunsWallets(sha, front);
      var ops := WalletOps(steps);
      if steps[|steps| - 1].WalletStep? {
        assert ops[..|ops| - 1] == WalletOps(front);
      }
    }
  }

  /** In every run in which the wallet operations are exact and replays harmless, a pot equals the initial balance
      plus what the ledger posted plus what committed tasks have yet to post; once every task is completed, the pot
      is what the ledger says, whatever relays, pods and crashes did in between. */
  lemma PotsAgreeWithLedger(sha: Sha, steps: seq<Step>, id: string, c: string)
    requires IsSha(sha) && ExactRun(WalletOps(steps)) && !IsSystemAccount(id)
    requires forall key :: HarmlessReplays(sha, EMPTY_SYSTEM, steps, key)
    ensures var s := Outbox.Run(sha, EMPTY_SYSTEM, steps);
            && Gain(s.db, id, c) == Net(AllPostings(s.ledger.docs), id, c) + Missing(s.db.tasks, s.ledger.docs, id, c)
            && ((forall i :: 0 <= i < |s.marks| ==> s.marks[i].status.Completed?) ==>
                  Gain(s.db, id, c) == Net(AllPostings(s.ledger.docs), id, c))
  {
    var s := Outbox.Run(sha, EMPTY_SYSTEM, steps);
    EveryRunDelivers(sha, steps);
    EveryEntryIsATask(sha, steps);
    SystemRunsWallets(sha, steps);
    EveryRunConserves(WalletOps(steps));
    Reconciles(s.db.tasks, s.ledger.docs, id, c);
    if forall i :: 0 <= i < |s.marks| ==> s.marks[i].status.Completed? {
      NoneMissing(s.db.tasks, s.ledger.docs, id, c);
    }
  }
}
