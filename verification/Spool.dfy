/** The disk spool for log events, as a sequence of events (pkg/observability/spool.go:62-248). */
module Spool {

  /** `encoded` is the length of the event's line without the newline. */
  datatype Event = Event(id: string, level: string, eventType: string, message: string, occurredAt: int, encoded: nat)

  const AUDIT := "AUDIT"

  datatype SpoolConfig = SpoolConfig(maxBytes: int, maxAge: int)

  /** NewFileSpoolWithConfig. */
  function WithDefaults(c: SpoolConfig): (r: SpoolConfig)
    ensures r.maxBytes > 0 && r.maxAge > 0
    ensures c.maxBytes > 0 ==> r.maxBytes == c.maxBytes
    ensures c.maxAge > 0 ==> r.maxAge == c.maxAge
    ensures c.maxBytes <= 0 ==> r.maxBytes == 52_428_800
    ensures c.maxAge <= 0 ==> r.maxAge == 3 * 24 * 60 * 60 * 1_000_000_000
  {
    SpoolConfig(if c.maxBytes <= 0 then 50 * 1024 * 1024 else c.maxBytes,
                if c.maxAge <= 0 then 72 * 3_600_000_000_000 else c.maxAge)
  }

  function FileSize(events: seq<Event>): nat {
    if events == [] then 0 else FileSize(events[..|events| - 1]) + events[|events| - 1].encoded + 1
  }

  predicate Expired(c: SpoolConfig, e: Event, now: int) {
    now - e.occurredAt > c.maxAge
  }

  function Unexpired(c: SpoolConfig, events: seq<Event>, now: int): seq<Event> {
    if events == [] then []
    else
      var front, e := Unexpired(c, events[..|events| - 1], now), events[|events| - 1];
      if Expired(c, e, now) then front else front + [e]
  }

  function Estimate(e: Event): nat {
    |e.eventType| + |e.message| + 200
  }

  function EstimatedSize(events: seq<Event>): nat {
    if events == [] then 0 else Estimate(events[0]) + EstimatedSize(events[1..])
  }

  function TargetBytes(c: SpoolConfig): int {
    c.maxBytes * 8 / 10
  }

  /** Newest first, an event that no longer fits is dropped unless it is an audit event. */
  function Fitting(events: seq<Event>, target: int): seq<Event> {
    if events == [] then []
    else
      var newer := Fitting(events[1..], target);
      if EstimatedSize(newer) + Estimate(events[0]) > target && events[0].level != AUDIT then newer
        else [events[0]] + newer
  }

  function Pruned(c: SpoolConfig, events: seq<Event>, now: int): seq<Event> {
    Fitting(Unexpired(c, events, now), TargetBytes(c))
  }

  function Appended(c: SpoolConfig, events: seq<Event>, e: Event, now: int): seq<Event> {
    (if FileSize(events) + e.encoded + 1 > c.maxBytes then Pruned(c, events, now) else events) + [e]
  }

  class FileSpool {
    const config: SpoolConfig
    var events: seq<Event>

    constructor (c: SpoolConfig)
      ensures config == WithDefaults(c) && events == []
    {
      config, events := WithDefaults(c), [];
    }

    method Append(e: Event, now: int)
      modifies this
      ensures events == Appended(config, old(events), e, now)
    {
      if FileSize(events) + e.encoded + 1 > config.maxBytes {
        PruneUnderLock(now);
      }
      events := events + [e];
    }

    method PruneUnderLock(now: int)
      modifies this
      ensures events == Pruned(config, old(events), now)
    {
      var live: seq<Event> := [];
      for i := 0 to |events|
        invariant live == Unexpired(config, events[..i], now)
      {
        assert events[..i + 1][..i] == events[..i];
        if now - events[i].occurredAt <= config.maxAge {
          live := live + [events[i]];
        }
      }
      assert events[..|events|] == events;
      var target := config.maxBytes * 8 / 10;
      var filtered: seq<Event> := [];
      var keptBytes := 0;
      for i := |live| downto 0
        invariant filtered == Fitting(live[i..], target) && keptBytes == EstimatedSize(filtered)
      {
        var e := live[i];
        assert live[i..][1..] == live[i + 1..];
        var eBytes := |e.eventType| + |e.message| + 200;
        if keptBytes + eBytes > target && e.level != AUDIT {
          continue;
        }
        filtered := [e] + filtered;
        keptBytes := keptBytes + eBytes;
      }
      assert live[0..] == live;
      events := filtered;
    }

    /** Publishes from the oldest on until the publisher refuses one, and keeps the rest. */
    method Replay(publishes: nat -> bool) returns (count: nat)
      modifies this
      ensures count <= |old(events)| && events == old(events)[count..]
      ensures forall i :: 0 <= i < count ==> publishes(i)
      ensures count < |old(events)| ==> !publishes(count)
    {
      var remaining: seq<Event> := [];
      count := 0;
      while count < |events|
        invariant count <= |events| && events == old(events) && remaining == []
        invariant forall i :: 0 <= i < count ==> publishes(i)
      {
        if !publishes(count) {
          remaining := [events[count]];
          for i := count + 1 to |events|
            invariant remaining == events[count..i]
          {
            remaining := remaining + [events[i]];
          }
          break;
        }
        count := count + 1;
      }
      events := remaining;
    }
  }

  // ---- what pruning keeps ----

  /** xs is ys with some events left out. */
  ghost predicate Subsequence(xs: seq<Event>, ys: seq<Event>) {
    if xs == [] then true
    else ys != [] && ((xs[0] == ys[0] && Subsequence(xs[1..], ys[1..])) || Subsequence(xs, ys[1..]))
  }

  function Audits(events: seq<Event>): seq<Event> {
    if events == [] then []
    else if events[0].level == AUDIT then [events[0]] + Audits(events[1..])
    else Audits(events[1..])
  }

  lemma {:induction false} SubsequenceRefl(xs: seq<Event>)
    ensures Subsequence(xs, xs)
  {
    if xs != [] {
      SubsequenceRefl(xs[1..]);
    }
  }

  lemma {:induction false} SubsequenceTrans(xs: seq<Event>, ys: seq<Event>, zs: seq<Event>)
    requires Subsequence(xs, ys) && Subsequence(ys, zs)
    ensures Subsequence(xs, zs)
    decreases |xs| + |ys| + |zs|
  {
    if xs != [] {
      if ys[0] == zs[0] && Subsequence(ys[1..], zs[1..]) {
        if xs[0] == ys[0] && Subsequence(xs[1..], ys[1..]) {
          SubsequenceTrans(xs[1..], ys[1..], zs[1..]);
        } else {
          SubsequenceTrans(xs, ys[1..], zs[1..]);
        }
      } else {
        SubsequenceTrans(xs, ys, zs[1..]);
      }
    }
  }

  lemma {:induction false} SubsequenceExtends(xs: seq<Event>, ys: seq<Event>, e: Event)
    requires Subsequence(xs, ys)
    ensures Subsequence(xs + [e], ys + [e]) && Subsequence(xs, ys + [e])
    decreases |xs| + |ys|
  {
    if ys == [] {
      SubsequenceRefl([e]);
      assert xs + [e] == [e];
    } else {
      assert (ys + [e])[1..] == ys[1..] + [e];
      if xs == [] {
        SubsequenceExtends(xs, ys[1..], e);
      } else {
        assert (xs + [e])[1..] == xs[1..] + [e];
        if xs[0] == ys[0] && Subsequence(xs[1..], ys[1..]) {
          SubsequenceExtends(xs[1..], ys[1..], e);
        } else {
          SubsequenceExtends(xs, ys[1..], e);
        }
      }
    }
  }

  lemma {:induction false} FittingIsSubsequence(events: seq<Event>, target: int)
    ensures Subsequence(Fitting(events, target), events)
  {
    if events != [] {
      FittingIsSubsequence(events[1..], target);
      var newer := Fitting(events[1..], target);
      assert ([events[0]] + newer)[1..] == newer;
    }
  }

  lemma {:induction false} FittingKeepsAudits(events: seq<Event>, target: int)
    ensures Audits(Fitting(events, target)) == Audits(events)
  {
    if events != [] {
      FittingKeepsAudits(events[1..], target);
      var newer := Fitting(events[1..], target);
      assert ([events[0]] + newer)[1..] == newer;
    }
  }

  lemma {:induction false} FittingFits(events: seq<Event>, target: int)
    requires target >= 0
    ensures EstimatedSize(Fitting(events, target)) <= target + EstimatedSize(Audits(events))
  {
    if events != [] {
      FittingFits(events[1..], target);
      var newer := Fitting(events[1..], target);
      assert ([events[0]] + newer)[1..] == newer;
      assert ([events[0]] + Audits(events[1..]))[1..] == Audits(events[1..]);
    }
  }

  /** Older events never displace newer ones: what is kept of the newer part does not depend on the older. */
  lemma {:induction false} NewerEventsComeFirst(older: seq<Event>, newer: seq<Event>, target: int)
    ensures var kept, tail := Fitting(older + newer, target), Fitting(newer, target);
            |tail| <= |kept| && kept[|kept| - |tail|..] == tail
  {
    if older == [] {
      assert older + newer == newer;
    } else {
      NewerEventsComeFirst(older[1..], newer, target);
      assert (older + newer)[1..] == older[1..] + newer;
    }
  }

  /** Within the target nothing is dropped. */
  lemma {:induction false} FittingKeepsWhatFits(events: seq<Event>, target: int)
    requires EstimatedSize(events) <= target
    ensures Fitting(events, target) == events
  {
    if events != [] {
      FittingKeepsWhatFits(events[1..], target);
    }
  }

  lemma {:induction false} UnexpiredIsSubsequence(c: SpoolConfig, events: seq<Event>, now: int)
    ensures Subsequence(Unexpired(c, events, now), events)
  {
    if events != [] {
      var front, e := events[..|events| - 1], events[|events| - 1];
      UnexpiredIsSubsequence(c, front, now);
      SubsequenceExtends(Unexpired(c, front, now), front, e);
      assert events == front + [e];
    }
  }

  /** Pruning keeps order, keeps every unexpired audit event, and keeps the estimated size within 80% of the limit
      plus the audit events. */
  lemma PruningIsCareful(c: SpoolConfig, events: seq<Event>, now: int)
    requires c.maxBytes > 0
    ensures var kept := Pruned(c, events, now);
            && Subsequence(kept, events)
            && Audits(kept) == Audits(Unexpired(c, events, now))
            && 10 * EstimatedSize(kept) <= 8 * c.maxBytes + 10 * EstimatedSize(Audits(kept))
  {
    var live := Unexpired(c, events, now);
    UnexpiredIsSubsequence(c, events, now);
    FittingIsSubsequence(live, TargetBytes(c));
    SubsequenceTrans(Pruned(c, events, now), live, events);
    FittingKeepsAudits(live, TargetBytes(c));
    FittingFits(live, TargetBytes(c));
  }

  /** Pruning drops nothing but expired events while the rest is within 80% of the limit. */
  lemma PruningKeepsWhatFits(c: SpoolConfig, events: seq<Event>, now: int)
    requires 10 * EstimatedSize(Unexpired(c, events, now)) <= 8 * c.maxBytes
    ensures Pruned(c, events, now) == Unexpired(c, events, now)
  {
    FittingKeepsWhatFits(Unexpired(c, events, now), TargetBytes(c));
  }

  /** An event counts with its type, its message and 200 bytes more; a line of the file with its newline. */
  lemma {:induction false} SizesAreSums(events: seq<Event>, e: Event)
    ensures EstimatedSize(events + [e]) == EstimatedSize(events) + |e.eventType| + |e.message| + 200
    ensures FileSize(events + [e]) == FileSize(events) + e.encoded + 1
    ensures EstimatedSize([]) == 0 && FileSize([]) == 0
  {
    assert (events + [e])[..|events|] == events;
    if events != [] {
      SizesAreSums(events[1..], e);
      assert (events + [e])[1..] == events[1..] + [e];
    } else {
      assert events + [e] == [e];
    }
  }

  /** An event is unexpired for as long as its age is at most the limit, and stays in its place. */
  lemma {:induction false} UnexpiredExactly(c: SpoolConfig, events: seq<Event>, e: Event, now: int)
    ensures Unexpired(c, events + [e], now)
            == if now - e.occurredAt <= c.maxAge then Unexpired(c, events, now) + [e] else Unexpired(c, events, now)
  {
    assert (events + [e])[..|events|] == events;
  }

  /** An append within the limit only appends; beyond it, it prunes first. */
  lemma AppendPrunesIfFull(c: SpoolConfig, events: seq<Event>, e: Event, now: int)
    ensures FileSize(events) + e.encoded < c.maxBytes ==> Appended(c, events, e, now) == events + [e]
    ensures FileSize(events) + e.encoded >= c.maxBytes ==> Appended(c, events, e, now) == Pruned(c, events, now) + [e]
  {
  }

  // ---- what pruning takes away ----

  lemma {:induction false} FittingTakesNoAudit(events: seq<Event>, target: int)
    ensures multiset(Fitting(events, target)) <= multiset(events)
    ensures forall e :: e in multiset(events) - multiset(Fitting(events, target)) ==> e.level != AUDIT
  {
    if events != [] {
      FittingTakesNoAudit(events[1..], target);
      assert events == [events[0]] + events[1..];
    }
  }

  lemma {:induction false} UnexpiredTakesExpired(c: SpoolConfig, events: seq<Event>, now: int)
    ensures multiset(Unexpired(c, events, now)) <= multiset(events)
    ensures forall e :: e in multiset(events) - multiset(Unexpired(c, events, now)) ==> Expired(c, e, now)
  {
    if events != [] {
      var front, e := events[..|events| - 1], events[|events| - 1];
      UnexpiredTakesExpired(c, front, now);
      assert events == front + [e];
    }
  }

  /** Nothing is invented, and an audit event is taken only if it has expired. */
  lemma PrunedTakesNoLiveAudit(c: SpoolConfig, events: seq<Event>, now: int)
    ensures multiset(Pruned(c, events, now)) <= multiset(events)
    ensures forall e :: e in multiset(events) - multiset(Pruned(c, events, now)) ==>
              e.level != AUDIT || Expired(c, e, now)
  {
    UnexpiredTakesExpired(c, events, now);
    FittingTakesNoAudit(Unexpired(c, events, now), TargetBytes(c));
  }
}
