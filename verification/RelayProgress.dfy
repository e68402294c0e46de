/** The relay makes progress (cmd/wallet-service/ledger_outbox.go:57, 70-135, 507-570). Tasks are listed by creation
    time, which a transaction takes before it commits (cmd/wallet-service/main.go:1016, 1339), so a task may become
    visible behind younger ones. One relay is active and its store writes succeed. */
module RelayProgress {
  const MAX_RETRIES := 5

  datatype RowStatus = Uncommitted | Pending | Completed | Failed

  /** A task as the relay sees it; its place in the list is its creation time. */
  datatype Row = Row(status: RowStatus, retries: nat)

  /** NewLedgerRelay: a batch is never empty by configuration. */
  function BatchSize(configured: int): (b: nat)
    ensures b > 0 && (configured > 0 ==> b == configured)
  {
    if configured <= 0 then 50 else configured
  }

  predicate IsPending(tasks: seq<Row>, i: nat) {
    i < |tasks| && tasks[i].status.Pending?
  }

  /** Pending tasks created before the n-th. */
  function Older(tasks: seq<Row>, n: nat): nat {
    if n == 0 then 0 else Older(tasks, n - 1) + if IsPending(tasks, n - 1) then 1 else 0
  }

  /** FindPending with limit b returns this task. */
  predicate InBatch(tasks: seq<Row>, b: nat, i: nat) {
    IsPending(tasks, i) && Older(tasks, i) < b
  }

  /** What a batch meets: the ledger's reply for each task, the tasks immediate dispatch completes meanwhile, and those
      that become visible. */
  datatype Events = Events(reply: nat -> bool, immediate: set<nat>, committed: set<nat>)

  /** A dispatched task one batch later. */
  predicate VisitedAs(before: Row, after: Row, reply: bool, immediate: bool) {
    if reply then after == before.(status := Completed)
    else
      && after.retries == before.retries + 1
      && (|| after.status == (if before.retries + 1 >= MAX_RETRIES then Failed else Pending)
          || (immediate && after.status.Completed?))
  }

  /** A task outside the batch. */
  predicate LeftAs(before: Row, after: Row, immediate: bool, committed: bool) {
    || after == before
    || (immediate && (before.status.Uncommitted? ==> committed) && after == before.(status := Completed))
    || (committed && before.status.Uncommitted? && after == before.(status := Pending))
  }

  predicate TaskAfter(before: seq<Row>, b: nat, e: Events, i: nat, after: Row)
    requires i < |before|
  {
    if InBatch(before, b, i) then VisitedAs(before[i], after, e.reply(i), i in e.immediate)
    else LeftAs(before[i], after, i in e.immediate, i in e.committed)
  }

  /** New tasks come last in the list, committed or not. */
  ghost predicate Batch(b: nat, before: seq<Row>, e: Events, after: seq<Row>) {
    && |before| <= |after|
    && (forall i :: 0 <= i < |before| ==> TaskAfter(before, b, e, i, after[i]))
    && (forall i :: |before| <= i < |after| ==>
        LeftAs(Row(Uncommitted, 0), after[i], i in e.immediate, i in e.committed))
  }

  // ---- the relay itself ----

  datatype Copy = Copy(index: nat, retries: nat)

  /** What the rest of the service does between two dispatches. */
  datatype Meanwhile = Meanwhile(immediate: set<nat>, committed: set<nat>, arrivals: nat)

  /** Commit, then immediate dispatch. */
  function Touched(row: Row, immediate: bool, committed: bool): Row {
    var visible := if committed && row.status.Uncommitted? then row.(status := Pending) else row;
    if immediate && !visible.status.Uncommitted? then visible.(status := Completed) else visible
  }

  class TaskStore {
    var tasks: seq<Row>

    constructor ()
      ensures tasks == []
    {
      tasks := [];
    }

    method FindPending(limit: nat) returns (batch: seq<Copy>)
      ensures forall k :: 0 <= k < |batch| ==>
                InBatch(tasks, limit, batch[k].index) && batch[k].retries == tasks[batch[k].index].retries
      ensures forall k, l :: 0 <= k < l < |batch| ==> batch[k].index < batch[l].index
      ensures forall i :: InBatch(tasks, limit, i) ==> exists k :: 0 <= k < |batch| && batch[k].index == i
      ensures |batch| == if Older(tasks, |tasks|) < limit then Older(tasks, |tasks|) else limit
    {
      batch := [];
      var n := 0;
      while n < |tasks| && |batch| < limit
        invariant 0 <= n <= |tasks| && |batch| <= limit && |batch| == Older(tasks, n)
        invariant forall k :: 0 <= k < |batch| ==>
                    && InBatch(tasks, limit, batch[k].index) && batch[k].index < n
                    && batch[k].retries == tasks[batch[k].index].retries
        invariant forall k, l :: 0 <= k < l < |batch| ==> batch[k].index < batch[l].index
        invariant forall i :: 0 <= i < n && InBatch(tasks, limit, i) ==>
                    exists k :: 0 <= k < |batch| && batch[k].index == i
      {
        if tasks[n].status.Pending? {
          ghost var was := batch;
          batch := batch + [Copy(n, tasks[n].retries)];
          assert batch[|was|].index == n;
          forall i | 0 <= i <= n && InBatch(tasks, limit, i)
            ensures exists k :: 0 <= k < |batch| && batch[k].index == i
          {
            if i < n {
              var k :| 0 <= k < |was| && was[k].index == i;
              assert batch[k].index == i;
            }
          }
        }
        n := n + 1;
      }
      forall i | n <= i < |tasks| ensures !InBatch(tasks, limit, i) {
        OlderGrows(tasks, n, i);
      }
      OlderGrows(tasks, n, |tasks|);
    }

    method MarkCompleted(i: nat)
      requires i < |tasks|
      modifies this
      ensures tasks == old(tasks)[i := old(tasks)[i].(status := Completed)]
    {
      tasks := tasks[i := tasks[i].(status := Completed)];
    }

    method MarkFailed(i: nat)
      requires i < |tasks|
      modifies this
      ensures tasks == old(tasks)[i := old(tasks)[i].(retries := old(tasks)[i].retries + 1)]
    {
      tasks := tasks[i := tasks[i].(retries := tasks[i].retries + 1)];
    }

    method MarkPermanentlyFailed(i: nat)
      requires i < |tasks|
      modifies this
      ensures tasks == old(tasks)[i := Row(Failed, old(tasks)[i].retries + 1)]
    {
      tasks := tasks[i := Row(Failed, tasks[i].retries + 1)];
    }

    method Interfere(m: Meanwhile)
      modifies this
      ensures |tasks| == |old(tasks)| + m.arrivals
      ensures forall i :: 0 <= i < |old(tasks)| ==>
                tasks[i] == Touched(old(tasks)[i], i in m.immediate, i in m.committed)
      ensures forall i :: |old(tasks)| <= i < |tasks| ==>
                tasks[i] == Touched(Row(Uncommitted, 0), i in m.immediate, i in m.committed)
    {
      var was := tasks;
      tasks := seq(|was| + m.arrivals, i requires 0 <= i < |was| + m.arrivals =>
                 Touched(if i < |was| then was[i] else Row(Uncommitted, 0), i in m.immediate, i in m.committed));
    }
  }

  /** The body of the loop: call the ledger, then mark the task by its reply. */
  method Dispatch(store: TaskStore, task: Copy, reply: bool, ghost was: Row, ghost immediate: bool)
    requires task.index < |store.tasks| && task.retries == was.retries && was.status.Pending?
    requires LeftAs(was, store.tasks[task.index], immediate, false)
    modifies store
    ensures |store.tasks| == |old(store.tasks)|
            && store.tasks == old(store.tasks)[task.index := store.tasks[task.index]]
    ensures VisitedAs(was, store.tasks[task.index], reply, immediate)
  {
    if !reply {
      if task.retries + 1 >= MAX_RETRIES {
        store.MarkPermanentlyFailed(task.index);
      } else {
        store.MarkFailed(task.index);
      }
    } else {
      store.MarkCompleted(task.index);
    }
  }

  ghost predicate VisitedBy(before: seq<Row>, e: Events, now: seq<Row>, i: nat) {
    && i < |before| && i < |now| && before[i].status.Pending?
    && VisitedAs(before[i], now[i], e.reply(i), i in e.immediate)
  }

  ghost predicate LeftBy(before: seq<Row>, e: Events, now: seq<Row>, i: nat) {
    i < |before| && i < |now| && LeftAs(before[i], now[i], i in e.immediate, i in e.committed)
  }

  ghost predicate NewRowsFit(before: seq<Row>, e: Events, now: seq<Row>) {
    && |before| <= |now|
    && forall i :: |before| <= i < |now| ==> LeftAs(Row(Uncommitted, 0), now[i], i in e.immediate, i in e.committed)
  }

  /** The service goes on for a while, then the next task of the batch is dispatched. */
  method Visit(store: TaskStore, task: Copy, e: Events, m: Meanwhile, ghost before: seq<Row>)
    requires m.immediate <= e.immediate && m.committed <= e.committed && NewRowsFit(before, e, store.tasks)
    requires LeftBy(before, e, store.tasks, task.index)
    requires before[task.index].status.Pending? && before[task.index].retries == task.retries
    modifies store
    ensures NewRowsFit(before, e, store.tasks) && VisitedBy(before, e, store.tasks, task.index)
    ensures forall i: nat :: i != task.index && LeftBy(before, e, old(store.tasks), i) ==>
              LeftBy(before, e, store.tasks, i)
    ensures forall i: nat :: i != task.index && VisitedBy(before, e, old(store.tasks), i) ==>
              VisitedBy(before, e, store.tasks, i)
  {
    store.Interfere(m);
    Dispatch(store, task, e.reply(task.index), before[task.index], task.index in e.immediate);
  }

  /** One call of ProcessBatch, with the ledger's replies and what happens before each dispatch as inputs. */
  method ProcessBatch(store: TaskStore, b: nat, e: Events, meanwhile: nat -> Meanwhile)
    returns (processed: nat, failed: nat)
    requires forall k :: meanwhile(k).immediate <= e.immediate && meanwhile(k).committed <= e.committed
    modifies store
    ensures Batch(b, old(store.tasks), e, store.tasks)
    ensures var pending := Older(old(store.tasks), |old(store.tasks)|);
            processed + failed == if pending < b then pending else b
    ensures failed == 0 <==> forall i: nat :: InBatch(old(store.tasks), b, i) ==> e.reply(i)
  {
    hide Older, LeftAs, VisitedAs;
    ghost var before := store.tasks;
    var batch := store.FindPending(b);
    processed, failed := 0, 0;
    assert forall i :: 0 <= i < |before| ==> LeftBy(before, e, store.tasks, i) by {
      LeftAlone(before, e);
    }
    for k := 0 to |batch|
      invariant processed + failed == k && NewRowsFit(before, e, store.tasks)
      invariant forall l :: 0 <= l < k ==> VisitedBy(before, e, store.tasks, batch[l].index)
      invariant forall l :: k <= l < |batch| ==> LeftBy(before, e, store.tasks, batch[l].index)
      invariant forall i: nat :: i < |before| && !InBatch(before, b, i) ==> LeftBy(before, e, store.tasks, i)
      invariant failed == 0 <==> forall l :: 0 <= l < k ==> e.reply(batch[l].index)
    {
      var task := batch[k];
      Visit(store, task, e, meanwhile(k), before);
      if e.reply(task.index) {
        processed := processed + 1;
      } else {
        failed := failed + 1;
      }
    }
    forall i | 0 <= i < |before| ensures TaskAfter(before, b, e, i, store.tasks[i]) {
      if InBatch(before, b, i) {
        var k :| 0 <= k < |batch| && batch[k].index == i;
        assert VisitedBy(before, e, store.tasks, batch[k].index);
      } else {
        assert LeftBy(before, e, store.tasks, i);
      }
    }
  }

  lemma LeftAlone(before: seq<Row>, e: Events)
    ensures forall i: nat :: i < |before| ==> LeftBy(before, e, before, i)
  {
  }

  // ---- progress over many batches ----

  lemma {:induction false} OlderGrows(tasks: seq<Row>, m: nat, n: nat)
    requires m <= n
    ensures Older(tasks, m) <= Older(tasks, n)
  {
    if m < n {
      OlderGrows(tasks, m, n - 1);
    }
  }

  /** Successive states of the store, each one batch after the last. */
  ghost predicate BatchAt(b: nat, states: seq<seq<Row>>, events: seq<Events>, k: nat)
    requires k + 1 < |states| && k < |events|
  {
    Batch(b, states[k], events[k], states[k + 1])
  }

  ghost predicate IsRun(b: nat, states: seq<seq<Row>>, events: seq<Events>) {
    && |states| == |events| + 1
    && forall k :: 0 <= k < |events| ==> BatchAt(b, states, events, k)
  }

  /** Everything created before the n-th task has committed. */
  ghost predicate Settled(tasks: seq<Row>, n: nat) {
    forall j :: 0 <= j < n && j < |tasks| ==> !tasks[j].status.Uncommitted?
  }

  /** Rows stay, what has committed stays so, and what has left pending does not come back. */
  lemma {:induction false} AlongRun(b: nat, states: seq<seq<Row>>, events: seq<Events>, k: nat, l: nat, i: nat)
    requires IsRun(b, states, events) && k <= l < |states| && i < |states[k]|
    ensures i < |states[l]|
    ensures !states[k][i].status.Uncommitted? ==>
              !states[l][i].status.Uncommitted? && (IsPending(states[l], i) ==> IsPending(states[k], i))
    decreases l
  {
    if k < l {
      AlongRun(b, states, events, k, l - 1, i);
      assert BatchAt(b, states, events, l - 1);
      assert TaskAfter(states[l - 1], b, events[l - 1], i, states[l][i]);
    }
  }

  lemma SettledAlongRun(b: nat, states: seq<seq<Row>>, events: seq<Events>, k: nat, l: nat, n: nat)
    requires IsRun(b, states, events) && k <= l < |states| && n <= |states[k]| && Settled(states[k], n)
    ensures n <= |states[l]| && Settled(states[l], n)
    ensures forall j :: 0 <= j < n && IsPending(states[l], j) ==> IsPending(states[k], j)
  {
    forall j | 0 <= j < n
      ensures j < |states[l]| && !states[l][j].status.Uncommitted?
              && (IsPending(states[l], j) ==> IsPending(states[k], j))
    {
      AlongRun(b, states, events, k, l, j);
    }
    if n > 0 {
      AlongRun(b, states, events, k, l, n - 1);
    }
  }

  lemma {:induction false} FewerPending(before: seq<Row>, after: seq<Row>, n: nat)
    requires forall j :: 0 <= j < n && IsPending(after, j) ==> IsPending(before, j)
    ensures Older(after, n) <= Older(before, n)
  {
    if n > 0 {
      FewerPending(before, after, n - 1);
    }
  }

  // ---- at most five visits ----

  /** How often the relay dispatched task i between two states. */
  function Visits(b: nat, states: seq<seq<Row>>, k: nat, l: nat, i: nat): nat
    requires k <= l < |states|
    decreases l
  {
    if k == l then 0 else Visits(b, states, k, l - 1, i) + if InBatch(states[l - 1], b, i) then 1 else 0
  }

  lemma {:induction false} PendingCountsVisits(b: nat, states: seq<seq<Row>>, events: seq<Events>, k: nat, l: nat,
                                               i: nat)
    requires IsRun(b, states, events) && k <= l < |states| && IsPending(states[k], i) && IsPending(states[l], i)
    ensures var v := Visits(b, states, k, l, i);
            states[l][i].retries == states[k][i].retries + v && (v > 0 ==> states[l][i].retries < MAX_RETRIES)
    decreases l
  {
    if k < l {
      AlongRun(b, states, events, k, l - 1, i);
      AlongRun(b, states, events, l - 1, l, i);
      PendingCountsVisits(b, states, events, k, l - 1, i);
      assert BatchAt(b, states, events, l - 1);
      assert TaskAfter(states[l - 1], b, events[l - 1], i, states[l][i]);
    }
  }

  /** In no run, from any state, is a task dispatched more than five times by the relay. */
  lemma {:induction false} AtMostFiveVisits(b: nat, states: seq<seq<Row>>, events: seq<Events>, k: nat, l: nat, i: nat)
    requires IsRun(b, states, events) && k <= l < |states| && IsPending(states[k], i)
    ensures Visits(b, states, k, l, i) <= MAX_RETRIES
    decreases l
  {
    if k < l {
      AtMostFiveVisits(b, states, events, k, l - 1, i);
      if InBatch(states[l - 1], b, i) {
        PendingCountsVisits(b, states, events, k, l - 1, i);
      }
    }
  }

  /** Among committed tasks, one in the batch stays in every following batch until it leaves. */
  lemma {:induction false} StaysInBatch(b: nat, states: seq<seq<Row>>, events: seq<Events>, k: nat, l: nat, i: nat)
    requires IsRun(b, states, events) && k <= l < |states| && InBatch(states[k], b, i) && Settled(states[k], i)
    requires IsPending(states[l], i)
    ensures Visits(b, states, k, l, i) == l - k && InBatch(states[l], b, i)
    decreases l
  {
    SettledAlongRun(b, states, events, k, l, i);
    FewerPending(states[k], states[l], i);
    if k < l {
      AlongRun(b, states, events, k, l - 1, i);
      AlongRun(b, states, events, l - 1, l, i);
      StaysInBatch(b, states, events, k, l - 1, i);
    }
  }

  /** A dispatched task has left pending five batches later. */
  lemma LeavesWithinFiveVisits(b: nat, states: seq<seq<Row>>, events: seq<Events>, k: nat, i: nat)
    requires IsRun(b, states, events) && k + MAX_RETRIES < |states| && InBatch(states[k], b, i) && Settled(states[k], i)
    ensures !IsPending(states[k + MAX_RETRIES], i)
  {
    if IsPending(states[k + MAX_RETRIES], i) {
      StaysInBatch(b, states, events, k, k + MAX_RETRIES, i);
      PendingCountsVisits(b, states, events, k, k + MAX_RETRIES, i);
    }
  }

  // ---- in time, among committed tasks ----

  /** Where the first b pending tasks are gone, b fewer are left. */
  lemma {:induction false} CountWithoutFront(b: nat, before: seq<Row>, after: seq<Row>, n: nat)
    requires forall j :: 0 <= j < n && IsPending(after, j) ==> IsPending(before, j) && !InBatch(before, b, j)
    ensures Older(after, n) == 0 || Older(after, n) <= Older(before, n) - b
  {
    if n > 0 {
      CountWithoutFront(b, before, after, n - 1);
    }
  }

  /** Five batches take b older tasks away. */
  lemma FiveBatchesAdvance(b: nat, states: seq<seq<Row>>, events: seq<Events>, k: nat, i: nat)
    requires IsRun(b, states, events) && k + MAX_RETRIES < |states| && i < |states[k]| && Settled(states[k], i)
    ensures Older(states[k + MAX_RETRIES], i) == 0 || Older(states[k + MAX_RETRIES], i) <= Older(states[k], i) - b
  {
    var before, after := states[k], states[k + MAX_RETRIES];
    SettledAlongRun(b, states, events, k, k + MAX_RETRIES, i);
    forall j | 0 <= j < i && IsPending(after, j) ensures IsPending(before, j) && !InBatch(before, b, j) {
      if InBatch(before, b, j) {
        LeavesWithinFiveVisits(b, states, events, k, j);
      }
    }
    CountWithoutFront(b, before, after, i);
  }

  lemma OneMoreRound(b: nat, rounds: nat)
    requires rounds > 0
    ensures b * rounds == b * (rounds - 1) + b
  {
  }

  lemma {:induction false} OlderAfterRounds(b: nat, states: seq<seq<Row>>, events: seq<Events>, i: nat, rounds: nat)
    requires b > 0 && IsRun(b, states, events) && i < |states[0]| && Settled(states[0], i)
    requires MAX_RETRIES * rounds < |states| && rounds <= Older(states[0], i) / b
    ensures i < |states[MAX_RETRIES * rounds]|
    ensures Older(states[MAX_RETRIES * rounds], i) <= Older(states[0], i) - b * rounds
  {
    if rounds > 0 {
      var k := MAX_RETRIES * (rounds - 1);
      OlderAfterRounds(b, states, events, i, rounds - 1);
      SettledAlongRun(b, states, events, 0, k, i);
      FiveBatchesAdvance(b, states, events, k, i);
      AlongRun(b, states, events, k, k + MAX_RETRIES, i);
      RoundsFit(Older(states[0], i), b, rounds);
      OneMoreRound(b, rounds);
      assert k + MAX_RETRIES == MAX_RETRIES * rounds;
    }
  }

  lemma RoundsFit(p: nat, b: nat, rounds: nat)
    requires b > 0 && rounds <= p / b
    ensures b * rounds <= p && p - b * (p / b) < b
  {
    var q := p / b;
    assert p == q * b + p % b;
    assert rounds * b <= q * b;
  }

  ghost predicate DispatchedBy(b: nat, states: seq<seq<Row>>, k: nat, i: nat) {
    exists m :: 0 <= m <= k && m < |states| && InBatch(states[m], b, i)
  }

  lemma {:induction false} UndispatchedIsPendingOrCompleted(b: nat, states: seq<seq<Row>>, events: seq<Events>,
                                                            k: nat, i: nat)
    requires IsRun(b, states, events) && IsPending(states[0], i) && k < |states|
    ensures i < |states[k]|
    ensures DispatchedBy(b, states, k, i) || states[k][i].status.Pending? || states[k][i].status.Completed?
  {
    if k > 0 {
      UndispatchedIsPendingOrCompleted(b, states, events, k - 1, i);
      assert BatchAt(b, states, events, k - 1);
      assert TaskAfter(states[k - 1], b, events[k - 1], i, states[k][i]);
    }
  }

  /** A pending task with p older pending tasks, and none older that has yet to commit, is dispatched within
      5 * (p / b) + 1 batches of size b, unless an immediate dispatch completes it before, whatever arrives and whatever
      fails; it has left pending five batches later. */
  lemma DispatchedInTime(b: nat, states: seq<seq<Row>>, events: seq<Events>, i: nat)
    requires b > 0 && IsRun(b, states, events) && IsPending(states[0], i) && Settled(states[0], i)
    requires MAX_RETRIES * (Older(states[0], i) / b) < |states|
    ensures var k := MAX_RETRIES * (Older(states[0], i) / b);
            && (DispatchedBy(b, states, k, i) || (i < |states[k]| && states[k][i].status.Completed?))
            && (k + MAX_RETRIES < |states| ==> !IsPending(states[k + MAX_RETRIES], i))
  {
    var p := Older(states[0], i);
    var k := MAX_RETRIES * (p / b);
    OlderAfterRounds(b, states, events, i, p / b);
    RoundsFit(p, b, p / b);
    UndispatchedIsPendingOrCompleted(b, states, events, k, i);
    if k + MAX_RETRIES < |states| {
      SettledAlongRun(b, states, events, 0, k, i);
      AlongRun(b, states, events, 0, k, i);
      AlongRun(b, states, events, k, k + MAX_RETRIES, i);
      if InBatch(states[k], b, i) {
        LeavesWithinFiveVisits(b, states, events, k, i);
      }
    }
  }

  // ---- in time, whatever commits late ----

  /** Visits a row can still take. */
  function Remaining(row: Row): nat {
    match row.status
    case Uncommitted => MAX_RETRIES
    case Pending => if row.retries + 1 >= MAX_RETRIES then 1 else MAX_RETRIES - row.retries
    case _ => 0
  }

  /** Visits that tasks created before the n-th can still take ... */
  function Budget(tasks: seq<Row>, n: nat): nat
    requires n <= |tasks|
  {
    if n == 0 then 0 else Budget(tasks, n - 1) + Remaining(tasks[n - 1])
  }

  /** ... and how many such tasks there are, visible or not. */
  function Ahead(tasks: seq<Row>, n: nat): nat
    requires n <= |tasks|
  {
    if n == 0 then 0
    else
      Ahead(tasks, n - 1) + if tasks[n - 1].status.Pending? || tasks[n - 1].status.Uncommitted? then 1 else 0
  }

  lemma {:induction false} BudgetBounds(tasks: seq<Row>, n: nat)
    requires n <= |tasks|
    ensures Older(tasks, n) <= Budget(tasks, n) <= MAX_RETRIES * Ahead(tasks, n)
  {
    if n > 0 {
      BudgetBounds(tasks, n - 1);
    }
  }

  /** A batch spends one visit on each of the first b pending tasks. */
  lemma {:induction false} BatchSpends(b: nat, before: seq<Row>, e: Events, after: seq<Row>, n: nat)
    requires Batch(b, before, e, after) && n <= |before|
    ensures Budget(after, n) + (if Older(before, n) < b then Older(before, n) else b) <= Budget(before, n)
  {
    if n > 0 {
      BatchSpends(b, before, e, after, n - 1);
      assert TaskAfter(before, b, e, n - 1, after[n - 1]);
    }
  }

  lemma {:induction false} BlockedSpends(b: nat, states: seq<seq<Row>>, events: seq<Events>, k: nat, i: nat)
    requires IsRun(b, states, events) && k < |states| && i < |states[0]|
    requires forall m :: 0 <= m < k ==> Older(states[m], i) >= b
    ensures i < |states[k]| && Budget(states[k], i) + b * k <= Budget(states[0], i)
  {
    if k > 0 {
      BlockedSpends(b, states, events, k - 1, i);
      assert BatchAt(b, states, events, k - 1);
      BatchSpends(b, states[k - 1], events[k - 1], states[k], i);
      assert Older(states[k - 1], i) >= b;
      OneMoreRound(b, k);
      hide Budget, Older;
    }
  }

  /** Even if older tasks commit late: with p older tasks, visible or not, a pending task is dispatched within
      5 * p / b + 1 batches, unless an immediate dispatch completes it before. */
  lemma DispatchedDespiteLateCommits(b: nat, states: seq<seq<Row>>, events: seq<Events>, i: nat)
    requires b > 0 && IsRun(b, states, events) && IsPending(states[0], i)
    requires MAX_RETRIES * Ahead(states[0], i) / b < |states|
    ensures var k := MAX_RETRIES * Ahead(states[0], i) / b;
            DispatchedBy(b, states, k, i) || (i < |states[k]| && states[k][i].status.Completed?)
  {
    var budget := MAX_RETRIES * Ahead(states[0], i);
    var k := budget / b;
    UndispatchedIsPendingOrCompleted(b, states, events, k, i);
    if !DispatchedBy(b, states, k, i) && states[k][i].status.Pending? {
      forall m | 0 <= m <= k ensures Older(states[m], i) >= b {
        AlongRun(b, states, events, 0, m, i);
        AlongRun(b, states, events, m, k, i);
        assert !InBatch(states[m], b, i);
      }
      BlockedSpends(b, states, events, k, i);
      BudgetBounds(states[0], i);
      BudgetBounds(states[k], i);
      RoundsFit(budget, b, k);
    }
  }

  /** The sharper bound needs that condition: one older task commits during the first batch, and then takes five. */
  function LateStates(): seq<seq<Row>> {
    seq(MAX_RETRIES + 1, m requires 0 <= m < MAX_RETRIES + 1 =>
          if m == 0 then [Row(Uncommitted, 0), Row(Pending, 0), Row(Pending, 0)]
          else [Row(Pending, m - 1), Row(Pending, 1), Row(Pending, 0)])
  }

  function LateEvents(): seq<Events> {
    seq(MAX_RETRIES, _ => Events(_ => false, {}, {0}))
  }

  lemma OlderOfThree(tasks: seq<Row>)
    requires |tasks| == 3
    ensures Older(tasks, 0) == 0
    ensures Older(tasks, 1) == if tasks[0].status.Pending? then 1 else 0
    ensures Older(tasks, 2) == Older(tasks, 1) + if tasks[1].status.Pending? then 1 else 0
  {
  }

  lemma LateCommitDelays()
    ensures var states, i := LateStates(), 2;
            && IsRun(1, states, LateEvents()) && IsPending(states[0], i) && Older(states[0], i) == 1
            && var k := MAX_RETRIES * (1 / 1);
               !DispatchedBy(1, states, k, i) && states[k][i] == Row(Pending, 0)
  {
    var states, events := LateStates(), LateEvents();
    forall m | 0 <= m < |states| ensures Older(states[m], 2) >= 1 {
      OlderOfThree(states[m]);
    }
    OlderOfThree(states[0]);
    forall k | 0 <= k < |events| ensures BatchAt(1, states, events, k) {
      OlderOfThree(states[k]);
      var before, after := states[k], states[k + 1];
      assert forall i :: 0 <= i < 3 ==> TaskAfter(before, 1, events[k], i, after[i]);
    }
  }

  // ---- how tasks end ----

  /** How often the relay dispatched task i and was refused. */
  function Refusals(b: nat, states: seq<seq<Row>>, events: seq<Events>, k: nat, l: nat, i: nat): nat
    requires k <= l < |states| && |states| == |events| + 1
    decreases l
  {
    if k == l then 0
    else
      Refusals(b, states, events, k, l - 1, i)
      + if InBatch(states[l - 1], b, i) && !events[l - 1].reply(i) then 1 else 0
  }

  /** Something completed task i: a successful dispatch of the relay, or an immediate one. */
  ghost predicate WasCompleted(b: nat, states: seq<seq<Row>>, events: seq<Events>, k: nat, l: nat, i: nat)
    requires k <= l < |states| && |states| == |events| + 1
  {
    exists m :: k <= m < l && ((InBatch(states[m], b, i) && events[m].reply(i)) || i in events[m].immediate)
  }

  /** A completed task stays completed, and a failed one is failed until an immediate dispatch completes it. */
  lemma {:induction false} EndsStay(b: nat, states: seq<seq<Row>>, events: seq<Events>, k: nat, l: nat, i: nat)
    requires IsRun(b, states, events) && k <= l < |states| && i < |states[k]|
    ensures i < |states[l]|
    ensures states[k][i].status.Completed? ==> states[l][i] == states[k][i]
    ensures states[k][i].status.Failed? ==> states[l][i].status.Failed? || states[l][i].status.Completed?
    decreases l
  {
    if k < l {
      EndsStay(b, states, events, k, l - 1, i);
      assert BatchAt(b, states, events, l - 1);
      assert TaskAfter(states[l - 1], b, events[l - 1], i, states[l][i]);
    }
  }

  /** A task that the ledger accepts is completed, for good. */
  lemma SuccessCompletes(b: nat, states: seq<seq<Row>>, events: seq<Events>, k: nat, l: nat, i: nat)
    requires IsRun(b, states, events) && k < l < |states| && InBatch(states[k], b, i) && events[k].reply(i)
    ensures i < |states[l]| && states[l][i].status.Completed?
  {
    assert BatchAt(b, states, events, k);
    assert TaskAfter(states[k], b, events[k], i, states[k + 1][i]);
    EndsStay(b, states, events, k + 1, l, i);
  }

  /** A task counts its refusals, fails exactly when they reach five, and is completed only by a success. */
  lemma {:induction false} EndsAreEarned(b: nat, states: seq<seq<Row>>, events: seq<Events>, k: nat, l: nat, i: nat)
    requires IsRun(b, states, events) && k <= l < |states| && IsPending(states[k], i)
             && states[k][i].retries < MAX_RETRIES
    ensures i < |states[l]| && states[l][i].retries == states[k][i].retries + Refusals(b, states, events, k, l, i)
    ensures states[l][i].status.Failed? ==> states[l][i].retries == MAX_RETRIES
    ensures states[l][i].status.Pending? ==> states[l][i].retries < MAX_RETRIES
    ensures states[l][i].status.Completed? ==> WasCompleted(b, states, events, k, l, i)
    ensures !states[l][i].status.Uncommitted?
    decreases l
  {
    if k < l {
      EndsAreEarned(b, states, events, k, l - 1, i);
      assert BatchAt(b, states, events, l - 1);
      assert TaskAfter(states[l - 1], b, events[l - 1], i, states[l][i]);
      if states[l][i].status.Completed? && WasCompleted(b, states, events, k, l - 1, i) {
        var m :| k <= m < l - 1 && ((InBatch(states[m], b, i) && events[m].reply(i)) || i in events[m].immediate);
      }
    }
  }
}
