/** From committed ledger tasks to ledger entries (cmd/wallet-service/ledger_outbox.go:50-135, 393-425, 507-570). Wallet
    transactions, relays, immediate dispatch and ledger pods are interleaved step by step; a batch of a relay is a
    set of workers, one per task it picked, so relays may overlap freely. */
module Outbox {
  import opened Hashing
  import opened AuditChain
  import LedgerPods
  import opened Wallets
  import RelayProgress

  datatype TaskStatus = Pending | Completed | Failed

  /** Status and retries of the task with the same index. */
  datatype Mark = Mark(status: TaskStatus, retries: nat)

  /** Where a worker got its copy of a task. A replayed exchange, deposit or withdrawal builds a new one. */
  datatype Origin = Relay(index: nat, retries: nat) | Immediate(index: nat) | Replay

  datatype Worker = Worker(origin: Origin, req: Task)

  /** `handlers` are the requests ledger pods are serving; a handler outlives a caller that gave up. */
  datatype System = System(db: Db, marks: seq<Mark>, workers: map<nat, Worker>, handlers: map<nat, Task>,
                           ledger: LedgerPods.State)

  const EMPTY_SYSTEM := System(EMPTY_DB, [], map[], map[], LedgerPods.EMPTY)

  datatype Step =
    | WalletStep(op: Op)
    | Pick(worker: nat, index: nat)
    | DispatchImmediate(worker: nat, index: nat)
    | DispatchReplay(worker: nat, op: Op)
    | Send(worker: nat, handler: nat)
    | Serve(handler: nat, newId: string, now: int, readFails: bool)
    | Insert(handler: nat)
    | HandlerDies(handler: nat)
    | Succeeded(worker: nat)
    | NotSucceeded(worker: nat)
    | WorkerDies(worker: nat)

  predicate HasKey(docs: seq<LedgerDocument>, key: string) {
    exists i :: 0 <= i < |docs| && docs[i].key == key
  }

  function Complete(s: System, o: Origin): seq<Mark> {
    match o
    case Replay => s.marks
    case _ => if o.index < |s.marks| then s.marks[o.index := s.marks[o.index].(status := Completed)] else s.marks
  }

  /** Only the relay records a failure, and it judges by the retries it read with the batch. */
  function Fail(s: System, o: Origin): seq<Mark> {
    match o
    case Relay(i, retries) =>
      if i < |s.marks| then
        var status := if retries + 1 >= RelayProgress.MAX_RETRIES then Failed else s.marks[i].status;
        s.marks[i := Mark(status, s.marks[i].retries + 1)]
      else s.marks
    case _ => s.marks
  }

  function Apply(sha: Sha, s: System, step: Step): System {
    match step
    case WalletStep(op) =>
      var db' := Wallets.Apply(s.db, op);
      s.(db := db', marks := if |db'.tasks| > |s.db.tasks| then s.marks + [Mark(Pending, 0)] else s.marks)
    case Pick(w, i) =>
      if i < |s.db.tasks| && i < |s.marks| && s.marks[i].status.Pending?
      then s.(workers := s.workers[w := Worker(Relay(i, s.marks[i].retries), s.db.tasks[i])]) else s
    case DispatchImmediate(w, i) =>
      if i < |s.db.tasks| then s.(workers := s.workers[w := Worker(Immediate(i), s.db.tasks[i])]) else s
    case DispatchReplay(w, op) =>
      if (op.Exchange? || op.Deposit? || op.Withdraw?) && op.key in s.db.idempotency && MoveOf(s.db, op).Some?
      then s.(workers := s.workers[w := Worker(Replay, MoveOf(s.db, op).value.task)]) else s
    case Send(w, h) =>
      if w in s.workers && h !in s.handlers then s.(handlers := s.handlers[h := s.workers[w].req]) else s
    case Serve(h, newId, now, readFails) =>
      if h in s.handlers
      then s.(ledger := LedgerPods.Apply(sha, s.ledger, ServeStep(s.handlers[h], h, newId, now, readFails))) else s
    case Insert(h) => s.(ledger := LedgerPods.Apply(sha, s.ledger, LedgerPods.Insert(h)))
    case HandlerDies(h) =>
      s.(handlers := s.handlers - {h}, ledger := LedgerPods.Apply(sha, s.ledger, LedgerPods.Crash(h)))
    case Succeeded(w) =>
      // the ledger reports success only for a key it holds: SuccessMeansHasKey
      if w in s.workers && HasKey(s.ledger.docs, s.workers[w].req.key)
      then s.(marks := Complete(s, s.workers[w].origin), workers := s.workers - {w}) else s
    case NotSucceeded(w) =>
      // refused, timed out, or the reply was lost
      if w in s.workers then s.(marks := Fail(s, s.workers[w].origin), workers := s.workers - {w}) else s
    case WorkerDies(w) => s.(workers := s.workers - {w})
  }

  function ServeStep(req: Task, h: nat, newId: string, now: int, readFails: bool): LedgerPods.Step {
    LedgerPods.Read(h, req, LedgerPods.DocId(req.txId, newId), now, readFails)
  }

  function Run(sha: Sha, s: System, steps: seq<Step>): System {
    if steps == [] then s else Apply(sha, Run(sha, s, steps[..|steps| - 1]), steps[|steps| - 1])
  }

  // ---- what holds in every run ----

  ghost predicate TaskKeysUnique(tasks: seq<Task>) {
    forall i, j :: 0 <= i < j < |tasks| ==> tasks[i].key != tasks[j].key
  }

  ghost predicate WorkerFits(s: System, w: Worker) {
    match w.origin
    case Replay => true
    case _ => w.origin.index < |s.db.tasks| && w.req == s.db.tasks[w.origin.index]
  }

  ghost predicate Inv(sha: Sha, s: System) {
    && |s.marks| == |s.db.tasks|
    && TaskKeysUnique(s.db.tasks)
    && LedgerPods.Inv(sha, s.ledger)
    && (forall w :: w in s.workers ==> WorkerFits(s, s.workers[w]))
    && (forall i :: 0 <= i < |s.marks| && s.marks[i].status.Completed? ==> HasKey(s.ledger.docs, s.db.tasks[i].key))
  }

  lemma WalletStepTasks(db: Db, op: Op)
    ensures var tasks' := Wallets.Apply(db, op).tasks;
            tasks' == db.tasks
            || (|tasks'| == |db.tasks| + 1 && tasks' == db.tasks + [tasks'[|db.tasks|]]
                && !HasTask(db.tasks, tasks'[|db.tasks|].key))
  {
    StepKeepsTasks(db, op);
  }

  lemma WalletStepKeepsInv(sha: Sha, s: System, op: Op)
    requires Inv(sha, s)
    ensures Inv(sha, Apply(sha, s, WalletStep(op)))
  {
    hide Wallets.Apply, LedgerPods.Inv;
    WalletStepTasks(s.db, op);
  }

  lemma LedgerGrows(sha: Sha, s: LedgerPods.State, step: LedgerPods.Step, key: string)
    requires HasKey(s.docs, key)
    ensures HasKey(LedgerPods.Apply(sha, s, step).docs, key)
  {
    var i :| 0 <= i < |s.docs| && s.docs[i].key == key;
    assert LedgerPods.Apply(sha, s, step).docs[i].key == key;
  }

  lemma LedgerStepKeepsInv(sha: Sha, s: System, step: LedgerPods.Step)
    requires IsSha(sha) && Inv(sha, s)
    ensures Inv(sha, s.(ledger := LedgerPods.Apply(sha, s.ledger, step)))
  {
    LedgerPods.StepKeepsInv(sha, s.ledger, step);
    hide LedgerPods.Inv, LedgerPods.Apply;
    forall i | 0 <= i < |s.marks| && s.marks[i].status.Completed?
      ensures HasKey(LedgerPods.Apply(sha, s.ledger, step).docs, s.db.tasks[i].key)
    {
      LedgerGrows(sha, s.ledger, step, s.db.tasks[i].key);
    }
  }

  lemma StepKeepsInv(sha: Sha, s: System, step: Step)
    requires IsSha(sha) && Inv(sha, s)
    ensures Inv(sha, Apply(sha, s, step))
  {
    match step
    case WalletStep(op) => WalletStepKeepsInv(sha, s, op);
    case Serve(h, newId, now, readFails) =>
      if h in s.handlers {
        LedgerStepKeepsInv(sha, s, ServeStep(s.handlers[h], h, newId, now, readFails));
      }
    case Insert(h) => LedgerStepKeepsInv(sha, s, LedgerPods.Insert(h));
    case HandlerDies(h) => LedgerStepKeepsInv(sha, s, LedgerPods.Crash(h));
    case _ => QuietStepKeepsInv(sha, s, step);
  }

  lemma QuietStepKeepsInv(sha: Sha, s: System, step: Step)
    requires Inv(sha, s) && !step.WalletStep? && !step.Serve? && !step.Insert? && !step.HandlerDies?
    ensures Inv(sha, Apply(sha, s, step))
  {
    hide LedgerPods.Inv, LedgerPods.Apply, Wallets.Apply, MoveOf;
  }

  /** The guard of a success: a pod that serves the request answers with an id only if the ledger then holds the key. */
  lemma SuccessMeansHasKey(sha: Sha, s: LedgerPods.State, req: Task, newId: string, w: LedgerPods.Weather)
    requires IsSha(sha) && LedgerPods.Inv(sha, s)
    ensures var (resp, s') := LedgerPods.Served(sha, s, req, newId, w);
            resp.Recorded? ==> HasKey(s'.docs, req.key)
  {
    LedgerPods.ServedIsSafe(sha, s, req, newId, w);
  }

  /** In every run, replays included: the ledger verifies, each committed task has at most one entry, and a completed
      task has one. */
  lemma EveryRunDelivers(sha: Sha, steps: seq<Step>)
    requires IsSha(sha)
    ensures Inv(sha, Run(sha, EMPTY_SYSTEM, steps))
  {
    RunKeepsInv(sha, EMPTY_SYSTEM, steps);
  }

  lemma {:induction false} RunKeepsInv(sha: Sha, s: System, steps: seq<Step>)
    requires IsSha(sha) && Inv(sha, s)
    ensures Inv(sha, Run(sha, s, steps)) && s.db.tasks <= Run(sha, s, steps).db.tasks
  {
    if steps != [] {
      var before := Run(sha, s, steps[..|steps| - 1]);
      RunKeepsInv(sha, s, steps[..|steps| - 1]);
      StepKeepsInv(sha, before, steps[|steps| - 1]);
      hide Inv, Apply;
      TasksStay(sha, before, steps[|steps| - 1]);
    }
  }

  lemma TasksStay(sha: Sha, s: System, step: Step)
    ensures s.db.tasks <= Apply(sha, s, step).db.tasks
  {
    hide Wallets.Apply, LedgerPods.Apply, MoveOf;
    if step.WalletStep? {
      StepKeepsTasks(s.db, step.op);
    }
  }

  // ---- what the entries carry ----

  function Lower(s: string): string {
    seq(|s|, i requires 0 <= i < |s| => ToLower(s[i]))
  }

  /** An entry says exactly what the task said, under the task's transaction id. */
  ghost predicate Carries(d: LedgerDocument, t: Task) {
    && d.key == t.key && d.source == t.source && d.destination == t.destination
    && d.amount == t.amount && d.currency == t.currency
    && d.destAmount == t.destAmount && d.destCurrency == t.destCurrency
    && LedgerPods.HasPostings(t) && d.postings == LedgerPods.Legs(t)
    && (LedgerPods.IsObjectId(t.txId) ==> d.id == Lower(t.txId))
  }

  ghost predicate Posted(tasks: seq<Task>, d: LedgerDocument) {
    exists i :: 0 <= i < |tasks| && Carries(d, tasks[i])
  }

  ghost predicate Known(tasks: seq<Task>, t: Task) {
    exists i :: 0 <= i < |tasks| && tasks[i] == t
  }

  predicate Servable(t: Task) {
    LedgerPods.Wellformed(t) && LedgerPods.HasPostings(t)
  }

  /** A request that cannot become an entry with another content than its task's. */
  ghost predicate Safe(s: System, t: Task) {
    Known(s.db.tasks, t) || HasKey(s.ledger.docs, t.key) || !Servable(t)
  }

  /** Of one key: every request on its way is safe, and what is or may become its entry is a task's. */
  ghost predicate FaithfulAt(s: System, key: string) {
    && (forall w :: w in s.workers && s.workers[w].req.key == key ==> Safe(s, s.workers[w].req))
    && (forall h :: h in s.handlers && s.handlers[h].key == key ==> Safe(s, s.handlers[h]))
    && (forall p :: p in s.ledger.pods && s.ledger.pods[p].key == key ==>
          Posted(s.db.tasks, s.ledger.pods[p]) || HasKey(s.ledger.docs, key))
    && (forall i :: 0 <= i < |s.ledger.docs| && s.ledger.docs[i].key == key ==> Posted(s.db.tasks, s.ledger.docs[i]))
  }

  /** A replay comes late, when the ledger has its key, or rebuilds a task that the ledger refuses. */
  ghost predicate HarmlessReplay(s: System, op: Op) {
    MoveOf(s.db, op).Some? ==>
      HasKey(s.ledger.docs, MoveOf(s.db, op).value.task.key) || !Servable(MoveOf(s.db, op).value.task)
  }

  predicate ReplaysKey(step: Step, key: string) {
    step.DispatchReplay? && IsMoneyOp(step.op) && step.op.key == key
  }

  /** Every replay of this key in the run is harmless where it happens. Other keys may be replayed at will, and
      transfers never dispatch a replay. */
  ghost predicate HarmlessReplays(sha: Sha, s: System, steps: seq<Step>, key: string) {
    forall i :: 0 <= i < |steps| ==> HarmlessAt(sha, s, steps, key, i)
  }

  ghost predicate HarmlessAt(sha: Sha, s: System, steps: seq<Step>, key: string, i: nat)
    requires i < |steps|
  {
    ReplaysKey(steps[i], key) ==> HarmlessReplay(Run(sha, s, steps[..i]), steps[i].op)
  }

  lemma MoreTasks(tasks: seq<Task>, more: seq<Task>)
    requires tasks <= more
    ensures forall d :: Posted(tasks, d) ==> Posted(more, d)
    ensures forall t :: Known(tasks, t) ==> Known(more, t)
  {
    forall d | Posted(tasks, d) ensures Posted(more, d) {
      var i :| 0 <= i < |tasks| && Carries(d, tasks[i]);
      assert Carries(d, more[i]);
    }
    forall t | Known(tasks, t) ensures Known(more, t) {
      var i :| 0 <= i < |tasks| && tasks[i] == t;
      assert more[i] == t;
    }
  }

  lemma ServedDocumentCarries(sha: Sha, t: Task, newId: string, sequence: int, previousHash: string, now: int)
    requires LedgerPods.HasPostings(t)
    ensures Carries(LedgerPods.NewDocument(sha, t, LedgerPods.DocId(t.txId, newId), sequence, previousHash, now), t)
  {
  }

  lemma ServeStaysFaithful(sha: Sha, s: System, step: Step, key: string)
    requires FaithfulAt(s, key) && step.Serve?
    ensures FaithfulAt(Apply(sha, s, step), key)
  {
    hide HasKey;
    if step.handler in s.handlers && Servable(s.handlers[step.handler]) {
      var t := s.handlers[step.handler];
      var link := LedgerPods.NextLink(s.ledger.docs, step.readFails);
      var d := LedgerPods.NewDocument(sha, t, LedgerPods.DocId(t.txId, step.newId), link.0, link.1, step.now);
      ServedDocumentCarries(sha, t, step.newId, link.0, link.1, step.now);
      hide LedgerPods.NextLink, LedgerPods.NewDocument, LedgerPods.DocId, Carries;
      assert Apply(sha, s, step) == s.(ledger := s.ledger.(pods := s.ledger.pods[step.handler := d]));
      assert d.key == t.key;
      if t.key == key && Known(s.db.tasks, t) {
        var i :| 0 <= i < |s.db.tasks| && s.db.tasks[i] == t;
        assert Carries(d, s.db.tasks[i]);
        assert Posted(s.db.tasks, d);
      }
    }
  }

  /** The index on the key lets an entry in only while there is none. */
  lemma InsertStaysFaithful(sha: Sha, s: System, h: nat, key: string)
    requires FaithfulAt(s, key)
    ensures FaithfulAt(Apply(sha, s, Insert(h)), key)
  {
    hide Posted, Servable;
    var s' := Apply(sha, s, Insert(h));
    if h in s.ledger.pods && LedgerPods.Insertable(s.ledger.docs, s.ledger.pods[h]) {
      var d := s.ledger.pods[h];
      assert s'.ledger.docs == s.ledger.docs + [d];
      forall k | HasKey(s.ledger.docs, k) ensures HasKey(s'.ledger.docs, k) {
        LedgerGrows(sha, s.ledger, LedgerPods.Insert(h), k);
      }
      assert forall t :: Safe(s, t) ==> Safe(s', t);
      if d.key == key {
        assert !HasKey(s.ledger.docs, key);
      }
    }
  }

  lemma WalletStepStaysFaithful(sha: Sha, s: System, op: Op, key: string)
    requires FaithfulAt(s, key)
    ensures FaithfulAt(Apply(sha, s, WalletStep(op)), key)
  {
    hide Posted, Known, Wallets.Apply, HasKey, Servable;
    StepKeepsTasks(s.db, op);
    MoreTasks(s.db.tasks, Wallets.Apply(s.db, op).tasks);
  }

  /** A worker that picks a task up holds the task; a harmless replay holds a safe request. */
  lemma PickStaysFaithful(sha: Sha, s: System, step: Step, key: string)
    requires Inv(sha, s) && FaithfulAt(s, key) && (step.Pick? || step.DispatchImmediate? || step.DispatchReplay?)
    requires ReplaysKey(step, key) ==> HarmlessReplay(s, step.op)
    ensures FaithfulAt(Apply(sha, s, step), key)
  {
    hide Posted, HasKey, Servable, LedgerPods.Inv;
    if step.DispatchReplay? {
      TaskHasKey(s.db, step.op);
      hide MoveOf;
    } else if step.index < |s.db.tasks| {
      assert Known(s.db.tasks, s.db.tasks[step.index]);
    }
  }

  lemma TaskHasKey(db: Db, op: Op)
    ensures MoveOf(db, op).Some? ==> IsMoneyOp(op) && MoveOf(db, op).value.task.key == op.key
  {
  }

  lemma OtherStepStaysFaithful(sha: Sha, s: System, step: Step, key: string)
    requires FaithfulAt(s, key)
    requires step.Send? || step.HandlerDies? || step.Succeeded? || step.NotSucceeded? || step.WorkerDies?
    ensures FaithfulAt(Apply(sha, s, step), key)
  {
    hide Posted, HasKey, Servable, Known;
    var s' := Apply(sha, s, step);
    assert s'.ledger.docs == s.ledger.docs && s'.db == s.db;
    assert forall t :: Safe(s, t) ==> Safe(s', t);
  }

  lemma StepStaysFaithful(sha: Sha, s: System, step: Step, key: string)
    requires Inv(sha, s) && FaithfulAt(s, key)
    requires ReplaysKey(step, key) ==> HarmlessReplay(s, step.op)
    ensures FaithfulAt(Apply(sha, s, step), key)
  {
    hide Apply, FaithfulAt, Inv;
    match step
    case WalletStep(op) => WalletStepStaysFaithful(sha, s, op, key);
    case Serve(_, _, _, _) => ServeStaysFaithful(sha, s, step, key);
    case Insert(h) => InsertStaysFaithful(sha, s, h, key);
    case Pick(_, _) => PickStaysFaithful(sha, s, step, key);
    case DispatchImmediate(_, _) => PickStaysFaithful(sha, s, step, key);
    case DispatchReplay(_, _) => PickStaysFaithful(sha, s, step, key);
    case _ => OtherStepStaysFaithful(sha, s, step, key);
  }

  lemma {:induction false} RunStaysFaithful(sha: Sha, s: System, steps: seq<Step>, key: string)
    requires IsSha(sha) && Inv(sha, s) && FaithfulAt(s, key) && HarmlessReplays(sha, s, steps, key)
    ensures FaithfulAt(Run(sha, s, steps), key)
  {
    hide Inv, FaithfulAt, HarmlessReplay, Apply;
    if steps != [] {
      var front := steps[..|steps| - 1];
      forall i | 0 <= i < |front| ensures HarmlessAt(sha, s, front, key, i) {
        assert front[..i] == steps[..i];
        assert HarmlessAt(sha, s, steps, key, i);
      }
      RunStaysFaithful(sha, s, front, key);
      RunKeepsInv(sha, s, front);
      assert HarmlessAt(sha, s, steps, key, |front|);
      StepStaysFaithful(sha, Run(sha, s, front), steps[|steps| - 1], key);
    }
  }

  /** Every entry of the i-th task's key carries the task. */
  ghost predicate CarriedAt(s: System, i: nat) {
    i < |s.db.tasks| && forall j :: 0 <= j < |s.ledger.docs| && s.ledger.docs[j].key == s.db.tasks[i].key ==>
      Carries(s.ledger.docs[j], s.db.tasks[i])
  }

  lemma FaithfulIsCarried(sha: Sha, s: System, i: nat)
    requires Inv(sha, s) && i < |s.db.tasks| && FaithfulAt(s, s.db.tasks[i].key)
    ensures CarriedAt(s, i)
  {
    hide Carries;
    forall j | 0 <= j < |s.ledger.docs| && s.ledger.docs[j].key == s.db.tasks[i].key
      ensures Carries(s.ledger.docs[j], s.db.tasks[i])
    {
      EntryOfTask(s.db.tasks, s.ledger.docs[j], i);
    }
  }

  lemma EntryOfTask(tasks: seq<Task>, d: LedgerDocument, i: nat)
    requires TaskKeysUnique(tasks) && Posted(tasks, d) && i < |tasks| && d.key == tasks[i].key
    ensures Carries(d, tasks[i])
  {
    var k :| 0 <= k < |tasks| && Carries(d, tasks[k]);
  }

  /** In every run, a committed task whose key is replayed only harmlessly, if at all, has at most one entry; that entry
      carries the task's own amounts and transaction id; and once the task is completed, it has its entry. */
  lemma EveryTaskPostedOnceAsCommitted(sha: Sha, steps: seq<Step>, i: nat)
    requires IsSha(sha) && i < |Run(sha, EMPTY_SYSTEM, steps).db.tasks|
    requires HarmlessReplays(sha, EMPTY_SYSTEM, steps, Run(sha, EMPTY_SYSTEM, steps).db.tasks[i].key)
    ensures var s := Run(sha, EMPTY_SYSTEM, steps);
            var t, docs := s.db.tasks[i], s.ledger.docs;
            && CarriedAt(s, i)
            && (forall j, k :: 0 <= j < k < |docs| ==> !(docs[j].key == t.key && docs[k].key == t.key))
            && |s.marks| == |s.db.tasks| && (s.marks[i].status.Completed? ==> HasKey(docs, t.key))
  {
    var s := Run(sha, EMPTY_SYSTEM, steps);
    EveryRunDelivers(sha, steps);
    RunStaysFaithful(sha, EMPTY_SYSTEM, steps, s.db.tasks[i].key);
    hide Run, FaithfulAt, CarriedAt;
    FaithfulIsCarried(sha, s, i);
  }

  /** And if all replays are harmless, every entry belongs to a committed task. */
  lemma EveryEntryIsATask(sha: Sha, steps: seq<Step>)
    requires IsSha(sha) && forall key :: HarmlessReplays(sha, EMPTY_SYSTEM, steps, key)
    ensures var s := Run(sha, EMPTY_SYSTEM, steps);
            forall j :: 0 <= j < |s.ledger.docs| ==> Posted(s.db.tasks, s.ledger.docs[j])
  {
    var s := Run(sha, EMPTY_SYSTEM, steps);
    EveryRunDelivers(sha, []);
    forall j | 0 <= j < |s.ledger.docs| ensures Posted(s.db.tasks, s.ledger.docs[j]) {
      RunStaysFaithful(sha, EMPTY_SYSTEM, steps, s.ledger.docs[j].key);
    }
  }
}
