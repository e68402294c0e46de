/** The asynchronous logger: bounded queue, publisher, spool (pkg/observability/publisher.go:118-194). */
module AsyncLogging {
  import opened Hashing
  import opened Spool

  /** `hand` is the event the worker took off the queue and has not yet disposed of. `pruned` and `emitted` are
      history kept by the model; the source counts dropped events. */
  datatype LogState = LogState(queue: seq<Event>, hand: Option<Event>, spool: seq<Event>, published: seq<Event>,
                               pruned: multiset<Event>, dropped: multiset<Event>, emitted: multiset<Event>)

  const SILENT := LogState([], None, [], [], multiset{}, multiset{}, multiset{})

  /** `lockFails`: the spool cannot be locked, so Append returns an error. `accepted`: how many events the publisher
      takes before it refuses one. */
  datatype LogStep =
    | Emit(e: Event, lockFails: bool, now: int)
    | Take
    | Publish(ok: bool, lockFails: bool, now: int)
    | ReplaySpool(accepted: nat)

  datatype LogConfig = LogConfig(capacity: nat, spool: SpoolConfig)

  function ToSpool(c: LogConfig, s: LogState, e: Event, lockFails: bool, now: int): LogState {
    if lockFails then s.(dropped := s.dropped + multiset{e})
    else
      var spool' := Appended(c.spool, s.spool, e, now);
      s.(spool := spool', pruned := s.pruned + (multiset(s.spool) + multiset{e} - multiset(spool')))
  }

  function Apply(c: LogConfig, s: LogState, step: LogStep): LogState {
    match step
    case Emit(e, lockFails, now) =>
      var s' := s.(emitted := s.emitted + multiset{e});
      if |s.queue| < c.capacity then s'.(queue := s.queue + [e]) else ToSpool(c, s', e, lockFails, now)
    case Take =>
      if s.hand.None? && s.queue != [] then s.(hand := Some(s.queue[0]), queue := s.queue[1..]) else s
    case Publish(ok, lockFails, now) =>
      if s.hand.None? then s
      else
        var s' := s.(hand := None);
        if ok then s'.(published := s.published + [s.hand.value]) else ToSpool(c, s', s.hand.value, lockFails, now)
    case ReplaySpool(n) =>
      var k := if n <= |s.spool| then n else |s.spool|;
      s.(published := s.published + s.spool[..k], spool := s.spool[k..])
  }

  function Run(c: LogConfig, s: LogState, steps: seq<LogStep>): LogState {
    if steps == [] then s else Apply(c, Run(c, s, steps[..|steps| - 1]), steps[|steps| - 1])
  }

  function InHand(s: LogState): multiset<Event> {
    if s.hand.Some? then multiset{s.hand.value} else multiset{}
  }

  /** All places an event can be in. */
  function Held(s: LogState): multiset<Event> {
    multiset(s.queue) + InHand(s) + multiset(s.published) + multiset(s.spool) + s.pruned + s.dropped
  }

  /** Every emitted event is in exactly one place. */
  ghost predicate Conserved(s: LogState) {
    s.emitted == Held(s)
  }

  function StepClock(clock: int, step: LogStep): int {
    if step.Emit? || step.Publish? then step.now else clock
  }

  function Clock(start: int, steps: seq<LogStep>): int {
    if steps == [] then start else StepClock(Clock(start, steps[..|steps| - 1]), steps[|steps| - 1])
  }

  ghost predicate ClockRuns(start: int, steps: seq<LogStep>) {
    forall i :: 0 <= i < |steps| ==> Clock(start, steps[..i]) <= StepClock(Clock(start, steps[..i]), steps[i])
  }

  ghost predicate OnlyOldAuditsPruned(c: LogConfig, s: LogState, clock: int) {
    forall e :: e in s.pruned && e.level == AUDIT ==> Expired(c.spool, e, clock)
  }

  lemma AppendTakes(c: SpoolConfig, spool: seq<Event>, e: Event, now: int)
    ensures multiset(Appended(c, spool, e, now)) <= multiset(spool) + multiset{e}
    ensures forall x :: x in multiset(spool) + multiset{e} - multiset(Appended(c, spool, e, now)) ==>
              x.level != AUDIT || Expired(c, x, now)
  {
    PrunedTakesNoLiveAudit(c, spool, now);
    var kept := if FileSize(spool) + e.encoded + 1 > c.maxBytes then Pruned(c, spool, now) else spool;
    assert multiset(kept + [e]) == multiset(kept) + multiset{e};
  }

  lemma SpoolingHolds(c: LogConfig, s: LogState, e: Event, lockFails: bool, now: int)
    ensures Held(ToSpool(c, s, e, lockFails, now)) == Held(s) + multiset{e}
  {
    AppendTakes(c.spool, s.spool, e, now);
    hide Appended;
  }

  lemma TakeHolds(c: LogConfig, s: LogState)
    ensures Held(Apply(c, s, Take)) == Held(s)
  {
    if s.hand.None? && s.queue != [] {
      assert s.queue == [s.queue[0]] + s.queue[1..];
      assert multiset(s.queue) == multiset{s.queue[0]} + multiset(s.queue[1..]);
    }
  }

  lemma PublishHolds(c: LogConfig, s: LogState, ok: bool, lockFails: bool, now: int)
    ensures Held(Apply(c, s, Publish(ok, lockFails, now))) == Held(s)
  {
    hide ToSpool;
    if s.hand.Some? && !ok {
      SpoolingHolds(c, s.(hand := None), s.hand.value, lockFails, now);
    } else if s.hand.Some? {
      assert multiset(s.published + [s.hand.value]) == multiset(s.published) + multiset{s.hand.value};
    }
  }

  lemma ReplayHolds(c: LogConfig, s: LogState, n: nat)
    ensures Held(Apply(c, s, ReplaySpool(n))) == Held(s)
  {
    var k := if n <= |s.spool| then n else |s.spool|;
    assert s.spool == s.spool[..k] + s.spool[k..];
    assert multiset(s.spool) == multiset(s.spool[..k]) + multiset(s.spool[k..]);
    assert multiset(s.published + s.spool[..k]) == multiset(s.published) + multiset(s.spool[..k]);
    Regroup(multiset(s.queue) + InHand(s), multiset(s.published), multiset(s.spool[..k]), multiset(s.spool[k..]));
  }

  lemma Regroup(a: multiset<Event>, b: multiset<Event>, c: multiset<Event>, d: multiset<Event>)
    ensures a + b + (c + d) == a + (b + c) + d
  {
  }

  lemma EmitHolds(c: LogConfig, s: LogState, e: Event, lockFails: bool, now: int)
    ensures Held(Apply(c, s, Emit(e, lockFails, now))) == Held(s) + multiset{e}
  {
    hide ToSpool;
    if |s.queue| >= c.capacity {
      SpoolingHolds(c, s.(emitted := s.emitted + multiset{e}), e, lockFails, now);
    } else {
      assert multiset(s.queue + [e]) == multiset(s.queue) + multiset{e};
    }
  }

  lemma StepConserves(c: LogConfig, s: LogState, step: LogStep)
    requires Conserved(s)
    ensures Conserved(Apply(c, s, step))
  {
    hide Held;
    match step
    case Emit(e, lockFails, now) => EmitHolds(c, s, e, lockFails, now);
    case Take => TakeHolds(c, s);
    case Publish(ok, lockFails, now) => PublishHolds(c, s, ok, lockFails, now);
    case ReplaySpool(n) => ReplayHolds(c, s, n);
  }

  lemma StepPrunesOldAudits(c: LogConfig, s: LogState, step: LogStep, clock: int)
    requires OnlyOldAuditsPruned(c, s, clock) && clock <= StepClock(clock, step)
    ensures OnlyOldAuditsPruned(c, Apply(c, s, step), StepClock(clock, step))
  {
    if step.Emit? {
      AppendTakes(c.spool, s.spool, step.e, step.now);
    } else if step.Publish? && s.hand.Some? {
      AppendTakes(c.spool, s.spool, s.hand.value, step.now);
    }
    hide Appended;
  }

  /** In every run each emitted event is in the queue, in the worker's hand, published, spooled, pruned or dropped,
      exactly once, and an audit event is never pruned before it expires. */
  lemma {:induction false} EveryRunConservesEvents(c: LogConfig, start: int, steps: seq<LogStep>)
    requires ClockRuns(start, steps)
    ensures Conserved(Run(c, SILENT, steps)) && OnlyOldAuditsPruned(c, Run(c, SILENT, steps), Clock(start, steps))
  {
    if steps != [] {
      var front := steps[..|steps| - 1];
      forall i | 0 <= i < |front| ensures Clock(start, front[..i]) <= StepClock(Clock(start, front[..i]), front[i]) {
        assert front[..i] == steps[..i];
      }
      EveryRunConservesEvents(c, start, front);
      assert Clock(start, steps[..|steps| - 1]) <= StepClock(Clock(start, steps[..|steps| - 1]), steps[|steps| - 1]);
      StepConserves(c, Run(c, SILENT, front), steps[|steps| - 1]);
      StepPrunesOldAudits(c, Run(c, SILENT, front), steps[|steps| - 1], Clock(start, front));
    }
  }

  // ---- nothing is dropped without need, nothing overtakes ----

  /** Steps at which the spool could not be locked. */
  function Unlockable(steps: seq<LogStep>): nat {
    if steps == [] then 0
    else
      var last := steps[|steps| - 1];
      Unlockable(steps[..|steps| - 1]) + if (last.Emit? || last.Publish?) && last.lockFails then 1 else 0
  }

  /** At most one event is dropped for each time the spool cannot be locked. */
  lemma {:induction false} DropsNeedFailures(c: LogConfig, steps: seq<LogStep>)
    ensures |Run(c, SILENT, steps).dropped| <= Unlockable(steps)
  {
    hide Appended;
    if steps != [] {
      DropsNeedFailures(c, steps[..|steps| - 1]);
    }
  }

  /** What was emitted, in order. */
  function EmittedBy(steps: seq<LogStep>): seq<Event> {
    if steps == [] then []
    else
      var last := steps[|steps| - 1];
      EmittedBy(steps[..|steps| - 1]) + if last.Emit? then [last.e] else []
  }

  /** The publisher accepts everything, and the queue has room whenever something is emitted. */
  ghost predicate Smooth(c: LogConfig, steps: seq<LogStep>, i: nat)
    requires i < |steps|
  {
    && (steps[i].Publish? ==> steps[i].ok)
    && (steps[i].Emit? ==> |Run(c, SILENT, steps[..i]).queue| < c.capacity)
  }

  ghost predicate SmoothRun(c: LogConfig, steps: seq<LogStep>) {
    forall i :: 0 <= i < |steps| ==> Smooth(c, steps, i)
  }

  function InHandSeq(hand: Option<Event>): seq<Event> {
    if hand.Some? then [hand.value] else []
  }

  lemma SmoothStep(c: LogConfig, s: LogState, step: LogStep)
    requires s.spool == [] && (step.Publish? ==> step.ok) && (step.Emit? ==> |s.queue| < c.capacity)
    ensures var s' := Apply(c, s, step);
            && s'.spool == []
            && s'.published + InHandSeq(s'.hand) + s'.queue
               == s.published + InHandSeq(s.hand) + s.queue + if step.Emit? then [step.e] else []
  {
    if step.Take? && s.hand.None? && s.queue != [] {
      assert s.queue == [s.queue[0]] + s.queue[1..];
    }
  }

  /** In a smooth run events are published in the order they were emitted, and the rest waits in that order. */
  lemma {:induction false} PublishedInOrder(c: LogConfig, steps: seq<LogStep>)
    requires SmoothRun(c, steps)
    ensures var s := Run(c, SILENT, steps);
            s.spool == [] && s.published + InHandSeq(s.hand) + s.queue == EmittedBy(steps)
  {
    hide Apply;
    if steps != [] {
      var front := steps[..|steps| - 1];
      forall i | 0 <= i < |front| ensures Smooth(c, front, i) {
        assert front[..i] == steps[..i];
        assert Smooth(c, steps, i);
      }
      PublishedInOrder(c, front);
      assert Smooth(c, steps, |front|);
      SmoothStep(c, Run(c, SILENT, front), steps[|steps| - 1]);
    }
  }

  /** An event goes to the spool exactly when the queue is full or the publisher refuses it, and the spool can be
      locked. */
  lemma SpooledExactly(c: LogConfig, s: LogState, step: LogStep)
    requires step.Emit? || (step.Publish? && s.hand.Some?)
    ensures var s' := Apply(c, s, step); var e := if step.Emit? then step.e else s.hand.value;
            var fallsBack := if step.Emit? then |s.queue| >= c.capacity else !step.ok;
            && (!fallsBack ==> s'.spool == s.spool && s'.dropped == s.dropped)
            && (fallsBack && step.lockFails ==> s'.spool == s.spool && s'.dropped == s.dropped + multiset{e})
            && (fallsBack && !step.lockFails ==>
                  s'.spool == Appended(c.spool, s.spool, e, step.now) && s'.dropped == s.dropped)
  {
    hide Appended;
  }

  // ---- the logger ----

  class AsyncLogger {
    const capacity: nat
    const spool: FileSpool
    var queue: seq<Event>
    var published: seq<Event>
    var droppedCount: nat
    ghost var pruned: multiset<Event>
    ghost var dropped: multiset<Event>
    ghost var emitted: multiset<Event>

    ghost function Now(hand: Option<Event>): LogState
      reads this, spool
    {
      LogState(queue, hand, spool.events, published, pruned, dropped, emitted)
    }

    ghost function Config(): LogConfig
      reads this, spool
    {
      LogConfig(capacity, spool.config)
    }

    ghost predicate Valid()
      reads this, spool
    {
      droppedCount == |dropped| && capacity > 0
    }

    constructor (bufferSize: int, s: FileSpool)
      requires s.events == []
      ensures Valid() && spool == s && Now(None) == SILENT
      ensures capacity == if bufferSize <= 0 then 256 else bufferSize
    {
      capacity := if bufferSize <= 0 then 256 else bufferSize;
      spool, queue, published, droppedCount := s, [], [], 0;
      pruned, dropped, emitted := multiset{}, multiset{}, multiset{};
    }

    /** The common fallback of Emit and publish. */
    method Fallback(e: Event, lockFails: bool, now: int, ghost hand: Option<Event>)
      requires Valid()
      modifies this, spool
      ensures Valid() && Now(hand) == ToSpool(Config(), old(Now(hand)), e, lockFails, now)
    {
      if lockFails {
        droppedCount, dropped := droppedCount + 1, dropped + multiset{e};
      } else {
        ghost var was := spool.events;
        spool.Append(e, now);
        pruned := pruned + (multiset(was) + multiset{e} - multiset(spool.events));
      }
    }

    method Emit(e: Event, lockFails: bool, now: int, ghost hand: Option<Event>)
      requires Valid()
      modifies this, spool
      ensures Valid() && Now(hand) == Apply(Config(), old(Now(hand)), LogStep.Emit(e, lockFails, now))
    {
      emitted := emitted + multiset{e};
      if |queue| < capacity {
        queue := queue + [e];
      } else {
        Fallback(e, lockFails, now, hand);
      }
    }

    method Publish(e: Event, ok: bool, lockFails: bool, now: int)
      requires Valid()
      modifies this, spool
      ensures Valid() && Now(None) == Apply(Config(), old(Now(Some(e))), LogStep.Publish(ok, lockFails, now))
    {
      if ok {
        published := published + [e];
      } else {
        Fallback(e, lockFails, now, None);
      }
    }

    method ReplayAndCount(publishes: nat -> bool) returns (count: nat)
      requires Valid()
      modifies this, spool
      ensures Valid() && Now(None) == Apply(Config(), old(Now(None)), ReplaySpool(count))
      ensures count <= |old(spool.events)| && published == old(published) + old(spool.events)[..count]
    {
      var was := spool.events;
      count := spool.Replay(publishes);
      published := published + was[..count];
    }

    /** One event off the queue and through publish. */
    method DrainOne(ok: bool, lockFails: bool, now: int)
      requires Valid() && Conserved(Now(None)) && queue != []
      modifies this, spool
      ensures Valid() && Conserved(Now(None)) && queue == old(queue)[1..] && emitted == old(emitted)
      ensures ok ==> published == old(published) + [old(queue)[0]] && spool.events == old(spool.events)
      ensures ok || !lockFails ==> dropped == old(dropped)
    {
      hide Held, Appended;
      var e := queue[0];
      ghost var s := Now(None);
      StepConserves(Config(), s, Take);
      queue := queue[1..];
      ghost var s' := Now(Some(e));
      assert s' == Apply(Config(), s, Take);
      Publish(e, ok, lockFails, now);
      StepConserves(Config(), s', LogStep.Publish(ok, lockFails, now));
    }

    /** After stop: what is left in the queue is published or spooled, in order. */
    method Drain(ok: nat -> bool, lockFails: nat -> bool, now: int)
      requires Valid() && Conserved(Now(None))
      modifies this, spool
      ensures Valid() && Conserved(Now(None)) && queue == [] && emitted == old(emitted)
      ensures (forall k :: ok(k)) ==> published == old(published) + old(queue) && spool.events == old(spool.events)
      ensures (forall k :: ok(k) || !lockFails(k)) ==> dropped == old(dropped)
    {
      hide Conserved;
      var i := 0;
      while queue != []
        invariant Valid() && Conserved(Now(None)) && emitted == old(emitted)
        invariant i <= |old(queue)| && queue == old(queue)[i..]
        invariant (forall k :: ok(k)) ==>
                    published == old(published) + old(queue)[..i] && spool.events == old(spool.events)
        invariant (forall k :: ok(k) || !lockFails(k)) ==> dropped == old(dropped)
        decreases |queue|
      {
        DrainOne(ok(i), lockFails(i), now);
        i := i + 1;
      }
    }
  }
}
