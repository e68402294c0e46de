/** The gateway's token buckets (cmd/api-gateway/middleware.go:159-229). Time is in seconds; tokens and rate are
    exact. */
module RateLimiter {

  datatype Bucket = Bucket(tokens: real, lastSeen: real)

  datatype Config = Config(rate: real, burst: int)

  type Clients = map<string, Bucket>

  datatype Event = Request(ip: string, at: real) | Cleanup(at: real)

  const IDLE: real := 300.0

  /** Tokens gained over a time. */
  function Accrued(cfg: Config, t: real): real {
    t * cfg.rate
  }

  function Refilled(cfg: Config, b: Bucket, now: real): real {
    var tokens := b.tokens + Accrued(cfg, now - b.lastSeen);
    if tokens > cfg.burst as real then cfg.burst as real else tokens
  }

  /** Allow's answer; a client it has not seen is let in unconditionally. */
  predicate Decide(cfg: Config, clients: Clients, ip: string, now: real) {
    ip in clients ==> Refilled(cfg, clients[ip], now) >= 1.0
  }

  function Take(cfg: Config, clients: Clients, ip: string, now: real): Bucket {
    if ip !in clients then Bucket(cfg.burst as real - 1.0, now)
    else
      var tokens := Refilled(cfg, clients[ip], now);
      Bucket(if tokens >= 1.0 then tokens - 1.0 else tokens, now)
  }

  function Evict(clients: Clients, now: real): Clients {
    map ip | ip in clients && !(clients[ip].lastSeen < now - IDLE) :: clients[ip]
  }

  function Apply(cfg: Config, clients: Clients, e: Event): Clients {
    match e
    case Request(ip, at) => clients[ip := Take(cfg, clients, ip, at)]
    case Cleanup(at) => Evict(clients, at)
  }

  function Run(cfg: Config, clients: Clients, events: seq<Event>): Clients {
    if events == [] then clients else Apply(cfg, Run(cfg, clients, events[..|events| - 1]), events[|events| - 1])
  }

  /** Requests of one client that were let in. */
  function Allowed(cfg: Config, clients: Clients, events: seq<Event>, ip: string): nat {
    if events == [] then 0
    else
      var front, e := events[..|events| - 1], events[|events| - 1];
      Allowed(cfg, clients, front, ip)
      + if e.Request? && e.ip == ip && Decide(cfg, Run(cfg, clients, front), ip, e.at) then 1 else 0
  }

  /** The clock never runs backwards. */
  ghost predicate Ordered(events: seq<Event>) {
    forall i, j :: 0 <= i < j < |events| ==> events[i].at <= events[j].at
  }

  class Limiter {
    const cfg: Config
    var clients: Clients

    constructor (rate: real, burst: int)
      ensures cfg == Config(rate, burst) && clients == map[]
    {
      cfg, clients := Config(rate, burst), map[];
    }

    method Allow(ip: string, now: real) returns (ok: bool)
      modifies this
      ensures ok == Decide(cfg, old(clients), ip, now)
      ensures clients == Apply(cfg, old(clients), Request(ip, now))
    {
      hide Accrued;
      if ip !in clients {
        clients := clients[ip := Bucket(cfg.burst as real - 1.0, now)];
        return true;
      }
      var tokens := clients[ip].tokens + Accrued(cfg, now - clients[ip].lastSeen);
      if tokens > cfg.burst as real {
        tokens := cfg.burst as real;
      }
      ok := tokens >= 1.0;
      if ok {
        tokens := tokens - 1.0;
      }
      clients := clients[ip := Bucket(tokens, now)];
    }

    method EvictStale(now: real)
      modifies this
      ensures clients == Apply(cfg, old(clients), Cleanup(now))
    {
      var cutoff := now - IDLE;
      var todo := clients.Keys;
      while todo != {}
        invariant todo <= clients.Keys <= old(clients).Keys
        invariant forall ip :: ip in clients ==>
                    clients[ip] == old(clients)[ip] && (ip in todo || !(clients[ip].lastSeen < cutoff))
        invariant forall ip :: ip in old(clients) && ip !in clients ==> old(clients)[ip].lastSeen < cutoff
        decreases todo
      {
        var ip :| ip in todo;
        if clients[ip].lastSeen < cutoff {
          clients := clients - {ip};
        }
        todo := todo - {ip};
      }
    }
  }

  // ---- the window bound ----

  /** Enough burst for one request, and a full bucket by the time a client is evicted. */
  predicate Adequate(cfg: Config) {
    cfg.burst >= 1 && Accrued(cfg, IDLE) >= cfg.burst as real
  }

  /** What a client could spend at a time. */
  function Level(cfg: Config, clients: Clients, ip: string, now: real): real {
    if ip in clients then Refilled(cfg, clients[ip], now) else cfg.burst as real
  }

  ghost predicate Sane(cfg: Config, clients: Clients, now: real) {
    forall ip :: ip in clients ==> clients[ip].tokens >= 0.0 && clients[ip].lastSeen <= now
  }

  /** The bounds below in numbers: tokens come at the rate, and the idle limit is five minutes. */
  lemma InNumbers(cfg: Config, t: real)
    ensures Accrued(cfg, t) == cfg.rate * t
    ensures Adequate(cfg) <==> cfg.burst >= 1 && cfg.rate * (5.0 * 60.0) >= cfg.burst as real
  {
  }

  lemma Grows(cfg: Config, x: real, y: real)
    requires cfg.rate >= 0.0 && x <= y
    ensures Accrued(cfg, x) <= Accrued(cfg, y) && Accrued(cfg, y - x) == Accrued(cfg, y) - Accrued(cfg, x)
    ensures Accrued(cfg, 0.0) == 0.0
  {
    assert (y - x) * cfg.rate >= 0.0;
  }

  lemma StepStaysSane(cfg: Config, clients: Clients, now: real, e: Event)
    requires cfg.rate >= 0.0 && cfg.burst >= 1 && Sane(cfg, clients, now) && now <= e.at
    ensures Sane(cfg, Apply(cfg, clients, e), e.at)
  {
    hide Accrued;
    if e.Request? && e.ip in clients {
      Grows(cfg, 0.0, e.at - clients[e.ip].lastSeen);
    }
  }

  /** A client evicted by an adequate limiter already had a full bucket. */
  lemma EvictedWasFull(cfg: Config, b: Bucket, now: real, later: real)
    requires cfg.rate >= 0.0 && Adequate(cfg) && b.tokens >= 0.0 && b.lastSeen < now - IDLE && now <= later
    ensures Refilled(cfg, b, later) == cfg.burst as real
  {
    hide Accrued;
    Grows(cfg, IDLE, later - b.lastSeen);
  }

  /** One event lowers the level by what it let in, and time raises it by at most the rate. */
  lemma LevelFalls(cfg: Config, clients: Clients, now: real, e: Event, ip: string)
    requires cfg.rate >= 0.0 && cfg.burst >= 1 && Sane(cfg, clients, now) && now <= e.at
    requires e.Cleanup? ==> Adequate(cfg)
    ensures Level(cfg, Apply(cfg, clients, e), ip, e.at)
            + (if e.Request? && e.ip == ip && Decide(cfg, clients, ip, e.at) then 1.0 else 0.0)
            <= Level(cfg, clients, ip, now) + Accrued(cfg, e.at - now)
    ensures Level(cfg, Apply(cfg, clients, e), ip, e.at) >= 0.0
  {
    hide Accrued;
    Grows(cfg, 0.0, e.at - now);
    if ip in clients {
      var b := clients[ip];
      Grows(cfg, 0.0, e.at - b.lastSeen);
      Grows(cfg, now - b.lastSeen, e.at - b.lastSeen);
      if e.Cleanup? && b.lastSeen < e.at - IDLE {
        EvictedWasFull(cfg, b, e.at, e.at);
      }
    }
  }

  ghost predicate NoCleanup(events: seq<Event>) {
    forall i :: 0 <= i < |events| ==> !events[i].Cleanup?
  }

  lemma {:induction false} WindowLevel(cfg: Config, clients: Clients, start: real, events: seq<Event>, ip: string)
    requires cfg.rate >= 0.0 && cfg.burst >= 1 && Sane(cfg, clients, start)
    requires Ordered(events) && forall i :: 0 <= i < |events| ==> start <= events[i].at
    requires Adequate(cfg) || NoCleanup(events)
    ensures var now := if events == [] then start else events[|events| - 1].at;
            && Sane(cfg, Run(cfg, clients, events), now)
            && Level(cfg, Run(cfg, clients, events), ip, now) >= 0.0
            && Allowed(cfg, clients, events, ip) as real + Level(cfg, Run(cfg, clients, events), ip, now)
               <= cfg.burst as real + Accrued(cfg, now - start)
  {
    hide Accrued;
    if events == [] {
      Grows(cfg, 0.0, 0.0);
      if ip in clients {
        Grows(cfg, 0.0, start - clients[ip].lastSeen);
      }
    } else {
      var front, e := events[..|events| - 1], events[|events| - 1];
      WindowLevel(cfg, clients, start, front, ip);
      var now := if front == [] then start else front[|front| - 1].at;
      var before := Run(cfg, clients, front);
      StepStaysSane(cfg, before, now, e);
      LevelFalls(cfg, before, now, e, ip);
      Grows(cfg, now - start, e.at - start);
      assert e.at - start - (now - start) == e.at - now;
    }
  }

  lemma {:induction false} RunIsSane(cfg: Config, events: seq<Event>, now: real)
    requires cfg.rate >= 0.0 && cfg.burst >= 1 && Ordered(events)
    requires forall i :: 0 <= i < |events| ==> events[i].at <= now
    ensures Sane(cfg, Run(cfg, map[], events), now)
  {
    hide Accrued;
    if events != [] {
      var front, e := events[..|events| - 1], events[|events| - 1];
      RunIsSane(cfg, front, e.at);
      StepStaysSane(cfg, Run(cfg, map[], front), e.at, e);
    }
  }

  /** At most burst + rate * T requests of a client are let in, in any window of length T of any run. */
  ghost predicate BoundedBy(cfg: Config, past: seq<Event>, window: seq<Event>, ip: string, start: real, T: real) {
    Ordered(past + window) && (forall i :: 0 <= i < |window| ==> start <= window[i].at <= start + T) && T >= 0.0
    && (forall i :: 0 <= i < |past| ==> past[i].at <= start) ==>
      Allowed(cfg, Run(cfg, map[], past), window, ip) as real <= cfg.burst as real + Accrued(cfg, T)
  }

  lemma WindowBound(cfg: Config, past: seq<Event>, window: seq<Event>, ip: string, start: real, T: real)
    requires cfg.rate >= 0.0 && cfg.burst >= 1
    requires Adequate(cfg) || NoCleanup(window)
    ensures BoundedBy(cfg, past, window, ip, start, T)
  {
    hide Accrued, Run, Allowed, Level, Adequate;
    if Ordered(past + window) && (forall i :: 0 <= i < |window| ==> start <= window[i].at <= start + T) && T >= 0.0
       && (forall i :: 0 <= i < |past| ==> past[i].at <= start) {
      assert forall i :: 0 <= i < |past| ==> (past + window)[i] == past[i];
      assert forall i :: 0 <= i < |window| ==> (past + window)[|past| + i] == window[i];
      RunIsSane(cfg, past, start);
      WindowLevel(cfg, Run(cfg, map[], past), start, window, ip);
      var now := if window == [] then start else window[|window| - 1].at;
      Grows(cfg, now - start, T);
    }
  }

  // ---- exactly when ----

  /** n requests of one client at one time. */
  function Volley(ip: string, at: real, n: nat): seq<Event> {
    seq(n, _ => Request(ip, at))
  }

  lemma {:induction false} VolleyPasses(cfg: Config, clients: Clients, ip: string, at: real, n: nat)
    requires cfg.rate >= 0.0 && ip !in clients && n <= cfg.burst
    ensures Allowed(cfg, clients, Volley(ip, at, n), ip) == n
    ensures n > 0 ==> ip in Run(cfg, clients, Volley(ip, at, n))
                      && Run(cfg, clients, Volley(ip, at, n))[ip] == Bucket((cfg.burst - n) as real, at)
    ensures n == 0 ==> Run(cfg, clients, Volley(ip, at, n)) == clients
  {
    hide Accrued;
    if n > 0 {
      VolleyPasses(cfg, clients, ip, at, n - 1);
      assert Volley(ip, at, n)[..n - 1] == Volley(ip, at, n - 1);
      Grows(cfg, 0.0, 0.0);
      assert at - at == 0.0;
      assert Volley(ip, at, n)[n - 1] == Request(ip, at);
    }
  }

  lemma {:induction false} RunConcat(cfg: Config, clients: Clients, xs: seq<Event>, ys: seq<Event>, ip: string)
    ensures Run(cfg, clients, xs + ys) == Run(cfg, Run(cfg, clients, xs), ys)
    ensures Allowed(cfg, clients, xs + ys, ip) ==
            Allowed(cfg, clients, xs, ip) + Allowed(cfg, Run(cfg, clients, xs), ys, ip)
  {
    hide Accrued;
    if ys == [] {
      assert xs + ys == xs;
    } else {
      RunConcat(cfg, clients, xs, ys[..|ys| - 1], ip);
      assert (xs + ys)[..|xs + ys| - 1] == xs + ys[..|ys| - 1];
    }
  }

  /** A full volley, an eviction, and another full volley. */
  function Twice(ip: string, at: real, n: nat): seq<Event> {
    Volley(ip, 0.0, n) + ([Cleanup(at)] + Volley(ip, at, n))
  }

  lemma TwiceIsOrdered(ip: string, at: real, n: nat)
    requires at >= 0.0
    ensures Ordered(Twice(ip, at, n))
    ensures forall i :: 0 <= i < |Twice(ip, at, n)| ==> 0.0 <= Twice(ip, at, n)[i].at <= at
  {
  }

  lemma TwicePasses(cfg: Config, ip: string, at: real)
    requires cfg.rate >= 0.0 && cfg.burst >= 1 && at > IDLE
    ensures Allowed(cfg, map[], Twice(ip, at, cfg.burst), ip) == 2 * cfg.burst
  {
    hide Accrued, Take, Decide, Volley;
    var n := cfg.burst;
    var after := Run(cfg, map[], Volley(ip, 0.0, n));
    VolleyPasses(cfg, map[], ip, 0.0, n);
    assert ip !in Evict(after, at);
    RunConcat(cfg, map[], Volley(ip, 0.0, n), [Cleanup(at)] + Volley(ip, at, n), ip);
    RunConcat(cfg, after, [Cleanup(at)], Volley(ip, at, n), ip);
    OneCleanup(cfg, after, at, ip);
    VolleyPasses(cfg, Evict(after, at), ip, at, n);
  }

  lemma OneCleanup(cfg: Config, clients: Clients, at: real, ip: string)
    ensures Run(cfg, clients, [Cleanup(at)]) == Evict(clients, at) && Allowed(cfg, clients, [Cleanup(at)], ip) == 0
  {
    assert [Cleanup(at)][..0] == [];
  }

  /** A time just past the idle limit at which a bucket is not yet full. */
  lemma SlowRefill(cfg: Config) returns (at: real)
    requires cfg.rate >= 0.0 && cfg.burst >= 1 && !Adequate(cfg)
    ensures at > IDLE && Accrued(cfg, at) < cfg.burst as real
  {
    if cfg.rate == 0.0 {
      at := 301.0;
    } else {
      var full := cfg.burst as real / cfg.rate;
      assert full * cfg.rate == cfg.burst as real;
      assert full > IDLE by {
        if full <= IDLE {
          Grows(cfg, full, IDLE);
        }
      }
      at := (IDLE + full) / 2.0;
      assert at * cfg.rate == (IDLE * cfg.rate + full * cfg.rate) / 2.0;
    }
  }

  ghost predicate Bounded(cfg: Config) {
    forall past, window, ip, start, T :: BoundedBy(cfg, past, window, ip, start, T)
  }

  lemma InadequateIsUnbounded(cfg: Config)
    requires cfg.rate >= 0.0 && !Adequate(cfg)
    ensures !Bounded(cfg)
  {
    hide Accrued;
    if cfg.burst >= 1 {
      var at := SlowRefill(cfg);
      var window := Twice("ip", at, cfg.burst);
      TwicePasses(cfg, "ip", at);
      TwiceIsOrdered("ip", at, cfg.burst);
      hide Twice, Allowed;
      assert [] + window == window;
      assert Run(cfg, map[], []) == map[];
      assert !BoundedBy(cfg, [], window, "ip", 0.0, at);
    } else {
      var window := [Request("ip", 0.0)];
      assert [] + window == window && window[..0] == [];
      assert Allowed(cfg, map[], window, "ip") == 1;
      Grows(cfg, 0.0, 0.0);
      assert !BoundedBy(cfg, [], window, "ip", 0.0, 0.0);
    }
  }

  /** With the cleanup running, the window bound holds in every run if and only if the limiter is adequate. */
  lemma BoundedExactlyIfAdequate(cfg: Config)
    requires cfg.rate >= 0.0
    ensures Bounded(cfg) <==> Adequate(cfg)
  {
    hide BoundedBy;
    if Adequate(cfg) {
      forall past, window, ip, start, T ensures BoundedBy(cfg, past, window, ip, start, T) {
        WindowBound(cfg, past, window, ip, start, T);
      }
    } else {
      InadequateIsUnbounded(cfg);
    }
  }

  // ---- eviction is unobservable ----

  function Requests(events: seq<Event>): seq<Event> {
    if events == [] then []
    else
      var front, e := Requests(events[..|events| - 1]), events[|events| - 1];
      if e.Request? then front + [e] else front
  }

  /** Every decision is the one a limiter that never evicts would make. */
  ghost predicate SameDecision(cfg: Config, events: seq<Event>, ip: string, at: real) {
    Ordered(events) && (forall i :: 0 <= i < |events| ==> events[i].at <= at) ==>
      (Decide(cfg, Run(cfg, map[], events), ip, at) <==> Decide(cfg, Run(cfg, map[], Requests(events)), ip, at))
  }

  ghost predicate Unobservable(cfg: Config) {
    forall events, ip, at :: SameDecision(cfg, events, ip, at)
  }

  /** The evicting limiter's buckets are the other's, except for those that are full again. */
  ghost predicate Simulates(cfg: Config, evicting: Clients, keeping: Clients, now: real) {
    && Sane(cfg, keeping, now)
    && (forall ip :: ip in evicting ==> ip in keeping && keeping[ip] == evicting[ip])
    && (forall ip :: ip in keeping && ip !in evicting ==> keeping[ip].lastSeen < now - IDLE)
  }

  lemma StepSimulates(cfg: Config, evicting: Clients, keeping: Clients, now: real, e: Event)
    requires cfg.rate >= 0.0 && Adequate(cfg) && Simulates(cfg, evicting, keeping, now) && now <= e.at
    ensures e.Request? ==> Simulates(cfg, Apply(cfg, evicting, e), Apply(cfg, keeping, e), e.at)
                           && (Decide(cfg, evicting, e.ip, e.at) <==> Decide(cfg, keeping, e.ip, e.at))
    ensures e.Cleanup? ==> Simulates(cfg, Apply(cfg, evicting, e), keeping, e.at)
  {
    hide Accrued;
    StepStaysSane(cfg, keeping, now, e);
    if e.Request? && e.ip in keeping && e.ip !in evicting {
      EvictedWasFull(cfg, keeping[e.ip], now, e.at);
    }
  }

  lemma SimulatesLater(cfg: Config, evicting: Clients, keeping: Clients, now: real, later: real)
    requires Simulates(cfg, evicting, keeping, now) && now <= later
    ensures Simulates(cfg, evicting, keeping, later)
  {
  }

  lemma {:induction false} RunSimulates(cfg: Config, events: seq<Event>, now: real)
    requires cfg.rate >= 0.0 && Adequate(cfg) && Ordered(events)
    requires forall i :: 0 <= i < |events| ==> events[i].at <= now
    ensures Simulates(cfg, Run(cfg, map[], events), Run(cfg, map[], Requests(events)), now)
  {
    hide Accrued;
    if events != [] {
      var front, e := events[..|events| - 1], events[|events| - 1];
      RunSimulates(cfg, front, e.at);
      StepSimulates(cfg, Run(cfg, map[], front), Run(cfg, map[], Requests(front)), e.at, e);
      if e.Request? {
        assert Requests(events)[..|Requests(events)| - 1] == Requests(front);
      }
      hide Simulates, Apply;
      SimulatesLater(cfg, Run(cfg, map[], events), Run(cfg, map[], Requests(events)), e.at, now);
    }
  }

  lemma {:induction false} SameCounts(cfg: Config, events: seq<Event>, ip: string)
    requires Unobservable(cfg) && Ordered(events)
    ensures Allowed(cfg, map[], Requests(events), ip) == Allowed(cfg, map[], events, ip)
  {
    hide Accrued;
    if events != [] {
      var front, e := events[..|events| - 1], events[|events| - 1];
      SameCounts(cfg, front, ip);
      if e.Request? {
        assert SameDecision(cfg, front, e.ip, e.at);
        assert Requests(events)[..|Requests(events)| - 1] == Requests(front);
      }
    }
  }

  lemma {:induction false} RequestsStayOrdered(events: seq<Event>, start: real, end: real)
    requires Ordered(events) && forall i :: 0 <= i < |events| ==> start <= events[i].at <= end
    ensures Ordered(Requests(events)) && NoCleanup(Requests(events))
    ensures forall i :: 0 <= i < |Requests(events)| ==> start <= Requests(events)[i].at <= end
  {
    if events != [] {
      RequestsStayOrdered(events[..|events| - 1], start, events[|events| - 1].at);
    }
  }

  /** Evicting idle clients changes no decision of any run if and only if the limiter is adequate. */
  lemma EvictionUnobservableExactlyIfAdequate(cfg: Config)
    requires cfg.rate >= 0.0
    ensures Unobservable(cfg) <==> Adequate(cfg)
  {
    hide Accrued;
    if Adequate(cfg) {
      forall events: seq<Event>, ip, at ensures SameDecision(cfg, events, ip, at) {
        if Ordered(events) && forall i :: 0 <= i < |events| ==> events[i].at <= at {
          RunSimulates(cfg, events, at);
          StepSimulates(cfg, Run(cfg, map[], events), Run(cfg, map[], Requests(events)), at, Request(ip, at));
        }
      }
    } else if cfg.burst >= 1 {
      if Unobservable(cfg) {
        SecondVolleyIsSeen(cfg);
      }
    } else {
      NoBurstIsSeen(cfg);
    }
  }

  lemma SecondVolleyIsSeen(cfg: Config)
    requires cfg.rate >= 0.0 && cfg.burst >= 1 && !Adequate(cfg)
    ensures !Unobservable(cfg)
  {
    hide Accrued, Twice, Allowed, Requests, Unobservable, Run, Ordered, Adequate;
    if Unobservable(cfg) {
      var at := SlowRefill(cfg);
      var events := Twice("ip", at, cfg.burst);
      TwicePasses(cfg, "ip", at);
      TwiceIsOrdered("ip", at, cfg.burst);
      SameCounts(cfg, events, "ip");
      RequestsStayOrdered(events, 0.0, at);
      KeptRequests(cfg, Requests(events), at);
    }
  }

  lemma KeptRequests(cfg: Config, requests: seq<Event>, at: real)
    requires cfg.rate >= 0.0 && cfg.burst >= 1 && at >= 0.0 && Ordered(requests) && NoCleanup(requests)
    requires forall i :: 0 <= i < |requests| ==> 0.0 <= requests[i].at <= at
    ensures Allowed(cfg, map[], requests, "ip") as real <= cfg.burst as real + Accrued(cfg, at)
  {
    assert Run(cfg, map[], []) == map[] && [] + requests == requests;
    hide Accrued, Allowed, Run, Ordered, NoCleanup;
    WindowBound(cfg, [], requests, "ip", 0.0, at);
  }

  lemma OnceSeen(cfg: Config) returns (once: Clients)
    ensures once == map["ip" := Bucket(cfg.burst as real - 1.0, 0.0)]
    ensures Run(cfg, map[], [Request("ip", 0.0)]) == once
    ensures Run(cfg, map[], [Request("ip", 0.0), Cleanup(301.0)]) == map[]
    ensures Requests([Request("ip", 0.0), Cleanup(301.0)]) == [Request("ip", 0.0)]
  {
    var events := [Request("ip", 0.0), Cleanup(301.0)];
    assert events[..1] == [Request("ip", 0.0)] && events[..1][..0] == [] && [Request("ip", 0.0)][..0] == [];
    once := Run(cfg, map[], [Request("ip", 0.0)]);
    assert Run(cfg, map[], []) == map[];
    assert once == Apply(cfg, map[], Request("ip", 0.0));
    assert Run(cfg, map[], events) == Evict(once, 301.0) == map[];
    assert Requests([Request("ip", 0.0)]) == [Request("ip", 0.0)];
  }

  lemma NoBurstIsSeen(cfg: Config)
    requires cfg.rate >= 0.0 && cfg.burst < 1
    ensures !Unobservable(cfg)
  {
    hide Accrued, Run, Requests;
    var events := [Request("ip", 0.0), Cleanup(301.0)];
    var once := OnceSeen(cfg);
    assert Decide(cfg, Run(cfg, map[], events), "ip", 301.0);
    assert !Decide(cfg, once, "ip", 301.0);
    assert Ordered(events) && forall i :: 0 <= i < |events| ==> events[i].at <= 301.0;
    assert !SameDecision(cfg, events, "ip", 301.0);
  }

  /** The cleanup forgets exactly the clients last seen more than five minutes ago. */
  lemma EvictsExactly(clients: Clients, now: real, ip: string)
    ensures ip in Evict(clients, now) <==> ip in clients && now - clients[ip].lastSeen <= 5.0 * 60.0
    ensures ip in Evict(clients, now) ==> Evict(clients, now)[ip] == clients[ip]
  {
  }

  // ---- the other half: what is not spent is let in ----

  /** Counting from the m-th event, a request of the client, one more request at a time stays within burst + rate *
      T. */
  ghost predicate HasRoomSince(cfg: Config, events: seq<Event>, ip: string, at: real, m: nat)
    requires m < |events|
  {
    Allowed(cfg, Run(cfg, map[], events[..m]), events[m..], ip) as real + 1.0
    <= cfg.burst as real + Accrued(cfg, at - events[m].at)
  }

  /** A bucket was full at some request of its client; since then it gained with time and lost what was let in. */
  ghost predicate FilledAt(cfg: Config, events: seq<Event>, ip: string, b: Bucket, m: nat) {
    && m < |events| && events[m].Request? && events[m].ip == ip
    && b.tokens == cfg.burst as real + Accrued(cfg, b.lastSeen - events[m].at)
                   - Allowed(cfg, Run(cfg, map[], events[..m]), events[m..], ip) as real
  }

  ghost predicate SeenAt(events: seq<Event>, ip: string, at: real) {
    exists k :: 0 <= k < |events| && events[k] == Request(ip, at)
  }

  lemma Gains(cfg: Config, x: real, y: real)
    ensures Accrued(cfg, x) + Accrued(cfg, y) == Accrued(cfg, x + y) && Accrued(cfg, 0.0) == 0.0
  {
  }

  lemma OneRequest(cfg: Config, clients: Clients, e: Event)
    requires e.Request?
    ensures Allowed(cfg, clients, [e], e.ip) == if Decide(cfg, clients, e.ip, e.at) then 1 else 0
  {
    assert [e][..0] == [];
  }

  /** A request that finds its bucket full, or none, starts the count anew. */
  lemma FullBucketStarts(cfg: Config, front: seq<Event>, e: Event)
    requires cfg.burst >= 1 && e.Request?
    requires var clients := Run(cfg, map[], front); e.ip in clients ==>
               Refilled(cfg, clients[e.ip], e.at) == cfg.burst as real
    ensures var b := Take(cfg, Run(cfg, map[], front), e.ip, e.at); FilledAt(cfg, front + [e], e.ip, b, |front|)
  {
    var events := front + [e];
    assert events[..|front|] == front && events[|front|..] == [e];
    OneRequest(cfg, Run(cfg, map[], front), e);
    Gains(cfg, 0.0, 0.0);
    assert e.at - e.at == 0.0;
    hide Accrued, Run, Allowed;
  }

  /** Another event leaves the count of a bucket it does not touch. */
  lemma CountGoesOn(cfg: Config, front: seq<Event>, e: Event, ip: string, m: nat)
    requires m < |front|
    ensures var events := front + [e];
            Allowed(cfg, Run(cfg, map[], events[..m]), events[m..], ip)
            == Allowed(cfg, Run(cfg, map[], front[..m]), front[m..], ip)
               + if e.Request? && e.ip == ip && Decide(cfg, Run(cfg, map[], front), ip, e.at) then 1 else 0
  {
    var events := front + [e];
    assert events[..m] == front[..m] && events[m..] == front[m..] + [e] && front == front[..m] + front[m..];
    RunConcat(cfg, map[], front[..m], front[m..], ip);
    RunConcat(cfg, Run(cfg, map[], front[..m]), front[m..], [e], ip);
    hide Accrued, Decide;
    assert [e][..0] == [];
  }

  lemma SeenStays(front: seq<Event>, e: Event, ip: string, at: real)
    requires SeenAt(front, ip, at)
    ensures SeenAt(front + [e], ip, at)
  {
    var k :| 0 <= k < |front| && front[k] == Request(ip, at);
    assert (front + [e])[k] == Request(ip, at);
  }

  /** The count of the client whose bucket is not full goes on at its next request ... */
  lemma CountedRequest(cfg: Config, front: seq<Event>, e: Event, b: Bucket, m: nat)
    requires e.Request? && e.ip in Run(cfg, map[], front) && b == Run(cfg, map[], front)[e.ip]
    requires FilledAt(cfg, front, e.ip, b, m) && Refilled(cfg, b, e.at) < cfg.burst as real
    ensures FilledAt(cfg, front + [e], e.ip, Take(cfg, Run(cfg, map[], front), e.ip, e.at), m)
  {
    hide Run, Allowed, Accrued;
    CountGoesOn(cfg, front, e, e.ip, m);
    Gains(cfg, e.at - b.lastSeen, b.lastSeen - front[m].at);
    assert e.at - b.lastSeen + (b.lastSeen - front[m].at) == e.at - front[m].at;
    assert (front + [e])[m] == front[m];
  }

  /** ... and is not touched by other events. */
  lemma OtherEvent(cfg: Config, front: seq<Event>, e: Event, ip: string, b: Bucket, m: nat)
    requires FilledAt(cfg, front, ip, b, m) && !(e.Request? && e.ip == ip)
    ensures FilledAt(cfg, front + [e], ip, b, m)
  {
    hide Run, Allowed, Accrued;
    CountGoesOn(cfg, front, e, ip, m);
    assert (front + [e])[m] == front[m];
  }

  lemma {:induction false} BucketHistory(cfg: Config, events: seq<Event>, ip: string) returns (m: nat)
    requires cfg.burst >= 1 && ip in Run(cfg, map[], events)
    ensures FilledAt(cfg, events, ip, Run(cfg, map[], events)[ip], m)
    ensures SeenAt(events, ip, Run(cfg, map[], events)[ip].lastSeen)
  {
    hide FilledAt, Accrued, Allowed;
    var front, e := events[..|events| - 1], events[|events| - 1];
    assert events == front + [e];
    var before := Run(cfg, map[], front);
    if e.Request? && e.ip == ip {
      assert events[|front|] == Request(ip, e.at);
      if ip !in before || Refilled(cfg, before[ip], e.at) == cfg.burst as real {
        FullBucketStarts(cfg, front, e);
        m := |front|;
      } else {
        m := BucketHistory(cfg, front, ip);
        CountedRequest(cfg, front, e, before[ip], m);
      }
    } else {
      m := BucketHistory(cfg, front, ip);
      OtherEvent(cfg, front, e, ip, before[ip], m);
      SeenStays(front, e, ip, before[ip].lastSeen);
    }
  }

  /** A refused client has spent its due: since some earlier request, one more would exceed burst + rate * T. */
  lemma RefusedHasSpent(cfg: Config, events: seq<Event>, ip: string, at: real) returns (m: nat)
    requires cfg.burst >= 1 && !Decide(cfg, Run(cfg, map[], events), ip, at)
    ensures m < |events| && events[m].Request? && events[m].ip == ip && !HasRoomSince(cfg, events, ip, at, m)
  {
    m := BucketHistory(cfg, events, ip);
    var b := Run(cfg, map[], events)[ip];
    Gains(cfg, at - b.lastSeen, b.lastSeen - events[m].at);
    assert at - b.lastSeen + (b.lastSeen - events[m].at) == at - events[m].at;
    hide Accrued, Run, Allowed;
  }

  lemma LetInHasRoom(cfg: Config, events: seq<Event>, ip: string, at: real, m: nat)
    requires cfg.rate >= 0.0 && cfg.burst >= 1 && (Adequate(cfg) || NoCleanup(events))
    requires Ordered(events) && (forall i :: 0 <= i < |events| ==> events[i].at <= at) && m < |events|
    requires Decide(cfg, Run(cfg, map[], events), ip, at)
    ensures HasRoomSince(cfg, events, ip, at, m)
  {
    hide Accrued, Run, Allowed, Decide, Adequate;
    var window := events[m..] + [Request(ip, at)];
    assert events[..m] + window == events + [Request(ip, at)];
    CountGoesOn(cfg, events, Request(ip, at), ip, m);
    assert (events + [Request(ip, at)])[..m] == events[..m] && (events + [Request(ip, at)])[m..] == window;
    WindowBound(cfg, events[..m], window, ip, events[m].at, at - events[m].at);
  }

  /** A request is let in if and only if, counting from every earlier request of its client, the requests let in and
      this one stay within burst + rate * T. So a limiter refuses nobody who keeps to its rate. */
  lemma LetInExactly(cfg: Config, events: seq<Event>, ip: string, at: real)
    requires cfg.rate >= 0.0 && cfg.burst >= 1 && (Adequate(cfg) || NoCleanup(events))
    requires Ordered(events) && forall i :: 0 <= i < |events| ==> events[i].at <= at
    ensures Decide(cfg, Run(cfg, map[], events), ip, at) <==>
              forall m :: 0 <= m < |events| && events[m].Request? && events[m].ip == ip ==>
                  HasRoomSince(cfg, events, ip, at, m)
  {
    hide Accrued, Run, HasRoomSince, Decide, Adequate;
    if Decide(cfg, Run(cfg, map[], events), ip, at) {
      forall m | 0 <= m < |events| && events[m].Request? && events[m].ip == ip
        ensures HasRoomSince(cfg, events, ip, at, m)
      {
        LetInHasRoom(cfg, events, ip, at, m);
      }
    } else {
      var m := RefusedHasSpent(cfg, events, ip, at);
    }
  }

  /** A client that has been silent long enough to earn one token is let in, whatever was refused before. */
  lemma SilentClientIsLetIn(cfg: Config, events: seq<Event>, ip: string, at: real, silence: real)
    requires cfg.rate >= 0.0 && cfg.burst >= 1 && silence * cfg.rate >= 1.0
    requires Ordered(events) && forall i :: 0 <= i < |events| ==> events[i].at <= at
    requires forall i :: 0 <= i < |events| && events[i].Request? && events[i].ip == ip ==> events[i].at <= at - silence
    ensures Decide(cfg, Run(cfg, map[], events), ip, at)
  {
    hide Accrued, Run;
    var clients := Run(cfg, map[], events);
    if ip in clients {
      var m := BucketHistory(cfg, events, ip);
      RunIsSane(cfg, events, at);
      assert clients[ip].lastSeen <= at - silence;
      EarnsOne(cfg, silence, at - clients[ip].lastSeen);
    }
  }

  lemma EarnsOne(cfg: Config, silence: real, time: real)
    requires cfg.rate >= 0.0 && silence * cfg.rate >= 1.0 && silence <= time
    ensures Accrued(cfg, time) >= 1.0
  {
    Grows(cfg, silence, time);
  }
}
