/** The life cycle of FX quotes across pods (cmd/fx-service/engine.go:451-522, 545-695). Requests are interleaved at
    every access to the database or to a pod's memory; without a database each pod keeps its own quotes. */
module FxQuotes {

  datatype Status = Active | Executed | Expired

  datatype Terms =
      Terms(base: string, target: string, sourceAmount: int, targetAmount: int, feeAmount: int, expiresAt: int)

  datatype QuoteDoc = QuoteDoc(terms: Terms, status: Status)

  /** What was quoted, on which pod, and whether to a client: a spot conversion makes a quote for itself. */
  datatype Issued = Issued(terms: Terms, pod: nat, held: bool)

  /** A conversion may name the currencies and the amount it expects; "" and 0 name nothing. */
  datatype Purpose = Show | Convert(base: string, target: string, amount: int)

  datatype Stage =
    | Missing
    | Fetched(doc: QuoteDoc)
    | Loaded(doc: QuoteDoc)
    | Checked(doc: QuoteDoc)
    | Won(doc: QuoteDoc)
    | Lapsing
    | Spot(terms: Terms)

  datatype Worker = Worker(pod: nat, id: string, purpose: Purpose, stage: Stage)

  datatype Conversion = Conversion(request: nat, id: string, purpose: Purpose, terms: Terms, spot: bool)

  /** Which request took a quote, and when. */
  datatype Win = Win(request: nat, at: int)

  /** `quotes`, `wins` and `started` are history kept by the model. */
  datatype World = World(hasDb: bool, clock: int, db: map<string, QuoteDoc>, mem: map<(nat, string), QuoteDoc>,
                         workers: map<nat, Worker>, conversions: seq<Conversion>,
                         quotes: map<string, Issued>, wins: map<string, Win>, started: set<nat>)

  function Initial(hasDb: bool, clock: int): World {
    World(hasDb, clock, map[], map[], map[], [], map[], map[], {})
  }

  datatype Step =
    | Tick(now: int)
    | Issue(pod: nat, id: string, terms: Terms, insertFails: bool)
    | Start(request: nat, pod: nat, id: string, purpose: Purpose)
    | ReadDb(request: nat)
    | Refill(request: nat)
    | Check(request: nat)
    | CasDb(request: nat, replyLost: bool)
    | CasMem(request: nat)
    | Lapse(request: nat)
    | LapseDb(request: nat)
    | SpotStart(request: nat, pod: nat, id: string, terms: Terms, insertFails: bool)
    | SpotDone(request: nat)
    | Abandon(request: nat)
    | CrashPod(pod: nat)

  function Done(s: World, r: nat): World {
    s.(workers := s.workers - {r})
  }

  function Goto(s: World, r: nat, stage: Stage): World
    requires r in s.workers
  {
    s.(workers := s.workers[r := s.workers[r].(stage := stage)])
  }

  /** A new quote, written to the pod's memory and, unless the insert fails unnoticed, to the database. */
  function Add(s: World, pod: nat, id: string, terms: Terms, insertFails: bool, held: bool): World {
    s.(quotes := s.quotes[id := Issued(terms, pod, held)],
    mem := s.mem[(pod, id) := QuoteDoc(terms, Active)],
    db := if s.hasDb && !insertFails then s.db[id := QuoteDoc(terms, Active)] else s.db)
  }

  /** The checks on the loaded copy. */
  predicate Acceptable(s: World, doc: QuoteDoc, p: Purpose) {
    && p.Convert? && doc.status.Active? && s.clock <= doc.terms.expiresAt
    && (p.base == "" || p.base == doc.terms.base) && (p.target == "" || p.target == doc.terms.target)
    && (p.amount > 0 ==> p.amount == doc.terms.sourceAmount)
  }

  /** The filter of the database update. */
  predicate Claimable(s: World, id: string) {
    id in s.db && s.db[id].status.Active? && s.db[id].terms.expiresAt > s.clock
  }

  function Converted(s: World, r: nat, terms: Terms): World
    requires r in s.workers
  {
    var w := s.workers[r];
    Done(s, r).(conversions := s.conversions + [Conversion(r, w.id, w.purpose, terms, w.stage.Spot?)])
  }

  function CasMemory(s: World, r: nat, doc: QuoteDoc): World
    requires r in s.workers
  {
    var w := s.workers[r];
    var key := (w.pod, w.id);
    if key in s.mem && (!s.mem[key].status.Active? || s.clock > s.mem[key].terms.expiresAt) then Done(s, r)
    else
      var s' := Converted(s, r, doc.terms);
      s'.(mem := s.mem[key := (if key in s.mem then s.mem[key] else doc).(status := Executed)],
      wins := if s.hasDb then s.wins else s.wins[w.id := Win(r, s.clock)])
  }

  function Apply(s: World, step: Step): World {
    match step
    case Tick(now) => if now >= s.clock then s.(clock := now) else s
    case Issue(pod, id, terms, insertFails) =>
      if id in s.quotes then s else Add(s, pod, id, terms, insertFails, true)
    case Start(r, pod, id, purpose) =>
      if r in s.started then s
      else
        var stage := if (pod, id) in s.mem then Loaded(s.mem[(pod, id)]) else Missing;
        s.(started := s.started + {r}, workers := s.workers[r := Worker(pod, id, purpose, stage)])
    case ReadDb(r) =>
      if r in s.workers && s.workers[r].stage.Missing? then
        if s.hasDb && s.workers[r].id in s.db then Goto(s, r, Fetched(s.db[s.workers[r].id])) else Done(s, r)
      else s
    case Refill(r) =>
      if r in s.workers && s.workers[r].stage.Fetched? then
        var w := s.workers[r];
        Goto(s, r, Loaded(w.stage.doc)).(mem := s.mem[(w.pod, w.id) := w.stage.doc])
      else s
    case Check(r) =>
      if r in s.workers && s.workers[r].stage.Loaded? && s.workers[r].purpose.Convert? then
        if Acceptable(s, s.workers[r].stage.doc, s.workers[r].purpose)
          then Goto(s, r, Checked(s.workers[r].stage.doc)) else Done(s, r)
      else s
    case CasDb(r, replyLost) =>
      if r in s.workers && s.workers[r].stage.Checked? && s.hasDb then
        var w := s.workers[r];
        if Claimable(s, w.id) then
          var s' := s.(db := s.db[w.id := s.db[w.id].(status := Executed)], wins := s.wins[w.id := Win(r, s.clock)]);
          if replyLost then Done(s', r) else Goto(s', r, Won(w.stage.doc))
        else Done(s, r)
      else s
    case CasMem(r) =>
      if r in s.workers && (if s.hasDb then s.workers[r].stage.Won? else s.workers[r].stage.Checked?)
      then CasMemory(s, r, s.workers[r].stage.doc) else s
    case Lapse(r) =>
      if r in s.workers && s.workers[r].stage.Loaded? && s.workers[r].purpose.Show? then
        var w := s.workers[r];
        if w.stage.doc.status.Active? && s.clock > w.stage.doc.terms.expiresAt
        then Goto(s, r, Lapsing).(mem := s.mem[(w.pod, w.id) := w.stage.doc.(status := Expired)]) else Done(s, r)
      else s
    case LapseDb(r) =>
      if r in s.workers && s.workers[r].stage.Lapsing? then
        var id := s.workers[r].id;
        Done(s, r).(db := if id in s.db then s.db[id := s.db[id].(status := Expired)] else s.db)
      else s
    case SpotStart(r, pod, id, terms, insertFails) =>
      if r in s.started || id in s.quotes then s
      else Add(s, pod, id, terms, insertFails, false)
           .(started := s.started + {r}, workers := s.workers[r := Worker(pod, id, Convert("", "", 0), Spot(terms))])
    case SpotDone(r) =>
      if r in s.workers && s.workers[r].stage.Spot? then
        var w := s.workers[r];
        var key := (w.pod, w.id);
        Converted(s, r, w.stage.terms)
        .(mem := if key in s.mem then s.mem[key := s.mem[key].(status := Executed)] else s.mem,
        db := if w.id in s.db then s.db[w.id := s.db[w.id].(status := Executed)] else s.db)
      else s
    case Abandon(r) => Done(s, r)
    case CrashPod(pod) =>
      s.(mem := map key | key in s.mem && key.0 != pod :: s.mem[key],
      workers := map r | r in s.workers && s.workers[r].pod != pod :: s.workers[r])
  }

  function Run(s: World, steps: seq<Step>): World {
    if steps == [] then s else Apply(Run(s, steps[..|steps| - 1]), steps[|steps| - 1])
  }

  // ---- the invariant ----

  /** A copy of the quote, whatever its status. */
  ghost predicate Copy(s: World, id: string, terms: Terms) {
    id in s.quotes && s.quotes[id].terms == terms
  }

  /** A request gets what it names. */
  predicate Agrees(terms: Terms, p: Purpose) {
    && p.Convert?
    && (p.base != "" ==> terms.base == p.base) && (p.target != "" ==> terms.target == p.target)
    && (p.amount > 0 ==> terms.sourceAmount == p.amount)
  }

  ghost predicate StoresFit(s: World) {
    && (forall id :: id in s.db ==> Copy(s, id, s.db[id].terms))
    && (forall k :: k in s.mem ==> Copy(s, k.1, s.mem[k].terms))
    && (!s.hasDb ==> s.db == map[] && forall k :: k in s.mem ==> s.quotes[k.1].pod == k.0)
  }

  ghost predicate WorkerFits(s: World, r: nat, w: Worker) {
    && r in s.started
    && match w.stage
       case Missing => true
       case Fetched(doc) => Copy(s, w.id, doc.terms) && s.hasDb
       case Loaded(doc) => Copy(s, w.id, doc.terms) && (!s.hasDb ==> (w.pod, w.id) in s.mem)
       case Checked(doc) => Copy(s, w.id, doc.terms) && Agrees(doc.terms, w.purpose)
           && (!s.hasDb ==> (w.pod, w.id) in s.mem)
       case Won(doc) =>
         && Copy(s, w.id, doc.terms) && Agrees(doc.terms, w.purpose)
         && s.hasDb && w.id in s.wins && s.wins[w.id].request == r
       case Lapsing => true
       case Spot(terms) => Copy(s, w.id, terms) && Agrees(terms, w.purpose) && !s.quotes[w.id].held
  }

  ghost predicate WorkersFit(s: World) {
    forall r :: r in s.workers ==> WorkerFits(s, r, s.workers[r])
  }

  /** A quote that was taken is nowhere active where that counts, and was taken in time. */
  ghost predicate Taken(s: World, id: string) {
    && id in s.wins && id in s.quotes && s.wins[id].at <= s.quotes[id].terms.expiresAt
    && (s.hasDb ==> id in s.db && !s.db[id].status.Active?)
    && (!s.hasDb ==> forall k :: k in s.mem && k.1 == id ==> !s.mem[k].status.Active?)
  }

  ghost predicate ConversionFits(s: World, c: Conversion) {
    && c.request in s.started && c.request !in s.workers && Copy(s, c.id, c.terms) && Agrees(c.terms, c.purpose)
    && (if c.spot then !s.quotes[c.id].held else c.id in s.wins && s.wins[c.id].request == c.request)
  }

  ghost predicate ConversionsFit(s: World) {
    && (forall i :: 0 <= i < |s.conversions| ==> ConversionFits(s, s.conversions[i]))
    && (forall i, j :: 0 <= i < j < |s.conversions| ==> s.conversions[i].request != s.conversions[j].request)
  }

  ghost predicate Inv(s: World) {
    StoresFit(s) && WorkersFit(s) && (forall id :: id in s.wins ==> Taken(s, id)) && ConversionsFit(s)
  }

  // ---- each kind of write keeps it ----

  lemma AddKeepsInv(s: World, pod: nat, id: string, terms: Terms, insertFails: bool, held: bool)
    requires Inv(s) && id !in s.quotes
    ensures Inv(Add(s, pod, id, terms, insertFails, held))
  {
    var s' := Add(s, pod, id, terms, insertFails, held);
    assert id in s.wins ==> Taken(s, id);
    assert forall x, t :: Copy(s, x, t) ==> Copy(s', x, t) && s'.quotes[x] == s.quotes[x];
    hide Copy;
    AddKeepsStores(s, pod, id, terms, insertFails, held);
    forall r | r in s.workers ensures WorkerFits(s', r, s.workers[r]) {
      assert WorkerFits(s, r, s.workers[r]);
    }
    forall x | x in s.wins ensures Taken(s', x) {
      assert Taken(s, x);
    }
    forall i | 0 <= i < |s.conversions| ensures ConversionFits(s', s.conversions[i]) {
      assert ConversionFits(s, s.conversions[i]);
    }
  }

  lemma AddKeepsStores(s: World, pod: nat, id: string, terms: Terms, insertFails: bool, held: bool)
    requires StoresFit(s) && id !in s.quotes
    ensures StoresFit(Add(s, pod, id, terms, insertFails, held))
  {
  }

  lemma NewWorkerKeepsInv(s: World, r: nat, w: Worker)
    requires Inv(s) && r !in s.started && WorkerFits(s.(started := s.started + {r}), r, w)
    ensures Inv(s.(started := s.started + {r}, workers := s.workers[r := w]))
  {
    var s' := s.(started := s.started + {r}, workers := s.workers[r := w]);
    forall i | 0 <= i < |s.conversions| ensures ConversionFits(s', s.conversions[i]) {
      assert ConversionFits(s, s.conversions[i]);
    }
    forall q | q in s'.workers ensures WorkerFits(s', q, s'.workers[q]) {
      if q != r {
        assert WorkerFits(s, q, s.workers[q]);
      }
    }
    assert forall id :: id in s.wins ==> Taken(s, id);
    assert forall id :: Taken(s, id) ==> Taken(s', id);
  }

  lemma GotoKeepsInv(s: World, r: nat, stage: Stage)
    requires Inv(s) && r in s.workers && WorkerFits(s, r, s.workers[r].(stage := stage))
    ensures Inv(Goto(s, r, stage))
  {
    var s' := Goto(s, r, stage);
    forall q | q in s'.workers ensures WorkerFits(s', q, s'.workers[q]) {
      if q != r {
        assert WorkerFits(s, q, s.workers[q]);
      }
    }
    assert forall id :: Taken(s, id) ==> Taken(s', id);
    assert forall c :: ConversionFits(s, c) ==> ConversionFits(s', c);
  }

  lemma DoneKeepsInv(s: World, r: nat)
    requires Inv(s)
    ensures Inv(Done(s, r))
  {
    var s' := Done(s, r);
    forall q | q in s'.workers ensures WorkerFits(s', q, s'.workers[q]) {
      assert WorkerFits(s, q, s.workers[q]);
    }
    assert forall id :: Taken(s, id) ==> Taken(s', id);
    assert forall c :: ConversionFits(s, c) ==> ConversionFits(s', c);
  }

  /** Without a database, memory must not fall back to active. */
  lemma SetMemKeepsInv(s: World, key: (nat, string), doc: QuoteDoc)
    requires Inv(s) && Copy(s, key.1, doc.terms)
    requires !s.hasDb ==> s.quotes[key.1].pod == key.0 && !doc.status.Active?
    ensures Inv(s.(mem := s.mem[key := doc]))
  {
    var s' := s.(mem := s.mem[key := doc]);
    forall q | q in s'.workers ensures WorkerFits(s', q, s'.workers[q]) {
      assert WorkerFits(s, q, s.workers[q]);
    }
    forall id | id in s.wins ensures Taken(s', id) {
      assert Taken(s, id);
    }
    assert forall c :: ConversionFits(s, c) ==> ConversionFits(s', c);
  }

  lemma SetDbKeepsInv(s: World, id: string, status: Status)
    requires Inv(s) && id in s.db && !status.Active?
    ensures Inv(s.(db := s.db[id := s.db[id].(status := status)]))
  {
    var s' := s.(db := s.db[id := s.db[id].(status := status)]);
    forall q | q in s'.workers ensures WorkerFits(s', q, s'.workers[q]) {
      assert WorkerFits(s, q, s.workers[q]);
    }
    forall x | x in s.wins ensures Taken(s', x) {
      assert Taken(s, x);
    }
    assert forall c :: ConversionFits(s, c) ==> ConversionFits(s', c);
  }

  lemma WinKeepsInv(s: World, id: string, r: nat)
    requires Inv(s) && id !in s.wins && Taken(s.(wins := s.wins[id := Win(r, s.clock)]), id)
    ensures Inv(s.(wins := s.wins[id := Win(r, s.clock)]))
  {
    var s' := s.(wins := s.wins[id := Win(r, s.clock)]);
    forall q | q in s'.workers ensures WorkerFits(s', q, s'.workers[q]) {
      assert WorkerFits(s, q, s.workers[q]);
    }
    forall x | x in s'.wins ensures Taken(s', x) {
      if x != id {
        assert Taken(s, x);
      }
    }
    assert forall c :: ConversionFits(s, c) ==> ConversionFits(s', c);
  }

  lemma ConvertedKeepsInv(s: World, r: nat, terms: Terms)
    requires Inv(s) && r in s.workers && Copy(s, s.workers[r].id, terms) && Agrees(terms, s.workers[r].purpose)
    requires var w := s.workers[r];
             if w.stage.Spot? then !s.quotes[w.id].held else w.id in s.wins && s.wins[w.id].request == r
    ensures Inv(Converted(s, r, terms))
  {
    DoneKeepsInv(s, r);
    var s', before := Converted(s, r, terms), Done(s, r);
    assert WorkerFits(s, r, s.workers[r]);
    forall i | 0 <= i < |s.conversions| ensures s.conversions[i].request != r {
      assert ConversionFits(s, s.conversions[i]);
    }
    forall q | q in s'.workers ensures WorkerFits(s', q, s'.workers[q]) {
      assert WorkerFits(before, q, before.workers[q]);
    }
    assert forall id :: Taken(before, id) ==> Taken(s', id);
    assert forall c :: ConversionFits(before, c) ==> ConversionFits(s', c);
    assert ConversionFits(s', Conversion(r, s.workers[r].id, s.workers[r].purpose, terms, s.workers[r].stage.Spot?));
  }

  // ---- each step keeps it ----

  lemma LoadStepKeepsInv(s: World, step: Step)
    requires Inv(s) && (step.Start? || step.ReadDb? || step.Check?)
    ensures Inv(Apply(s, step))
  {
    hide ConversionsFit, Taken;
    match step
    case Start(r, pod, id, purpose) =>
      if r !in s.started {
        NewWorkerKeepsInv(s, r,
                          Worker(pod, id, purpose, if (pod, id) in s.mem then Loaded(s.mem[(pod, id)]) else Missing));
      }
    case ReadDb(r) =>
      DoneKeepsInv(s, r);
      if r in s.workers && s.workers[r].stage.Missing? && s.hasDb && s.workers[r].id in s.db {
        GotoKeepsInv(s, r, Fetched(s.db[s.workers[r].id]));
      }
    case Check(r) =>
      DoneKeepsInv(s, r);
      if r in s.workers && s.workers[r].stage.Loaded? && Acceptable(s, s.workers[r].stage.doc, s.workers[r].purpose) {
        assert WorkerFits(s, r, s.workers[r]);
        GotoKeepsInv(s, r, Checked(s.workers[r].stage.doc));
      }
  }

  lemma RefillKeepsInv(s: World, r: nat)
    requires Inv(s)
    ensures Inv(Apply(s, Refill(r)))
  {
    hide ConversionsFit, Taken, StoresFit;
    if r in s.workers && s.workers[r].stage.Fetched? {
      var w := s.workers[r];
      assert WorkerFits(s, r, w);
      SetMemKeepsInv(s, (w.pod, w.id), w.stage.doc);
      GotoKeepsInv(s.(mem := s.mem[(w.pod, w.id) := w.stage.doc]), r, Loaded(w.stage.doc));
    }
  }

  lemma CasDbKeepsInv(s: World, r: nat, replyLost: bool)
    requires Inv(s)
    ensures Inv(Apply(s, CasDb(r, replyLost)))
  {
    hide ConversionsFit;
    DoneKeepsInv(s, r);
    if r in s.workers && s.workers[r].stage.Checked? && s.hasDb && Claimable(s, s.workers[r].id) {
      var w := s.workers[r];
      assert WorkerFits(s, r, w);
      assert w.id in s.wins ==> Taken(s, w.id);
      var s1 := s.(db := s.db[w.id := s.db[w.id].(status := Executed)]);
      SetDbKeepsInv(s, w.id, Executed);
      WinKeepsInv(s1, w.id, r);
      var s2 := s1.(wins := s.wins[w.id := Win(r, s.clock)]);
      DoneKeepsInv(s2, r);
      GotoKeepsInv(s2, r, Won(w.stage.doc));
    }
  }

  lemma CasMemKeepsInv(s: World, r: nat)
    requires Inv(s)
    ensures Inv(Apply(s, CasMem(r)))
  {
    DoneKeepsInv(s, r);
    if r in s.workers && (if s.hasDb then s.workers[r].stage.Won? else s.workers[r].stage.Checked?) {
      var w := s.workers[r];
      var key := (w.pod, w.id);
      assert WorkerFits(s, r, w);
      if !(key in s.mem && (!s.mem[key].status.Active? || s.clock > s.mem[key].terms.expiresAt)) {
        CasMemTakes(s, r, key);
      }
    }
  }

  lemma CasMemTakes(s: World, r: nat, key: (nat, string))
    requires Inv(s) && r in s.workers && WorkerFits(s, r, s.workers[r]) && key == (s.workers[r].pod, s.workers[r].id)
    requires if s.hasDb then s.workers[r].stage.Won? else s.workers[r].stage.Checked?
    requires key in s.mem ==> s.mem[key].status.Active? && s.clock <= s.mem[key].terms.expiresAt
    ensures Inv(CasMemory(s, r, s.workers[r].stage.doc))
  {
    hide ConversionsFit, WorkersFit;
    var id, doc := key.1, s.workers[r].stage.doc;
    var now := (if key in s.mem then s.mem[key] else doc).(status := Executed);
    var s1 := s.(mem := s.mem[key := now]);
    SetMemKeepsInv(s, key, now);
    if s.hasDb {
      ConvertedKeepsInv(s1, r, doc.terms);
    } else {
      assert id in s.wins ==> Taken(s, id);
      var s2 := s1.(wins := s.wins[id := Win(r, s.clock)]);
      assert Taken(s2, id);
      WinKeepsInv(s1, id, r);
      ConvertedKeepsInv(s2, r, doc.terms);
    }
  }

  lemma LapseKeepsInv(s: World, r: nat)
    requires Inv(s)
    ensures Inv(Apply(s, Lapse(r))) && Inv(Apply(s, LapseDb(r)))
  {
    hide ConversionsFit, Taken;
    DoneKeepsInv(s, r);
    if r in s.workers && s.workers[r].stage.Loaded? {
      var w := s.workers[r];
      assert WorkerFits(s, r, w);
      var doc := w.stage.doc.(status := Expired);
      SetMemKeepsInv(s, (w.pod, w.id), doc);
      GotoKeepsInv(s.(mem := s.mem[(w.pod, w.id) := doc]), r, Lapsing);
    } else if r in s.workers && s.workers[r].id in s.db {
      SetDbKeepsInv(Done(s, r), s.workers[r].id, Expired);
    }
  }

  lemma SpotKeepsInv(s: World, r: nat, pod: nat, id: string, terms: Terms, insertFails: bool)
    requires Inv(s) && r !in s.started && id !in s.quotes
    ensures Inv(Apply(s, SpotStart(r, pod, id, terms, insertFails)))
  {
    hide ConversionsFit, Taken, WorkersFit, StoresFit;
    AddKeepsInv(s, pod, id, terms, insertFails, false);
    NewWorkerKeepsInv(Add(s, pod, id, terms, insertFails, false), r, Worker(pod, id, Convert("", "", 0), Spot(terms)));
  }

  lemma SpotDoneKeepsInv(s: World, r: nat)
    requires Inv(s)
    ensures Inv(Apply(s, SpotDone(r)))
  {
    hide ConversionsFit, Taken;
    if r in s.workers && s.workers[r].stage.Spot? {
      var w := s.workers[r];
      assert WorkerFits(s, r, w);
      var key := (w.pod, w.id);
      var s1 := Converted(s, r, w.stage.terms);
      ConvertedKeepsInv(s, r, w.stage.terms);
      var s2 := if key in s.mem then s1.(mem := s.mem[key := s.mem[key].(status := Executed)]) else s1;
      if key in s.mem {
        SetMemKeepsInv(s1, key, s.mem[key].(status := Executed));
      }
      if w.id in s.db {
        SetDbKeepsInv(s2, w.id, Executed);
      }
    }
  }

  lemma TickKeepsInv(s: World, now: int)
    requires Inv(s)
    ensures Inv(s.(clock := now))
  {
    var s' := s.(clock := now);
    assert forall r, w :: WorkerFits(s, r, w) ==> WorkerFits(s', r, w);
    assert forall id :: Taken(s, id) ==> Taken(s', id);
    assert forall c :: ConversionFits(s, c) ==> ConversionFits(s', c);
  }

  lemma CrashKeepsInv(s: World, pod: nat)
    requires Inv(s)
    ensures Inv(Apply(s, CrashPod(pod)))
  {
    var s' := Apply(s, CrashPod(pod));
    forall q | q in s'.workers ensures WorkerFits(s', q, s'.workers[q]) {
      assert WorkerFits(s, q, s.workers[q]);
    }
    assert forall id :: Taken(s, id) ==> Taken(s', id);
    assert forall c :: ConversionFits(s, c) ==> ConversionFits(s', c);
  }

  lemma StepKeepsInv(s: World, step: Step)
    requires Inv(s)
    ensures Inv(Apply(s, step))
  {
    match step
    case Tick(now) => TickKeepsInv(s, now);
    case Issue(pod, id, terms, insertFails) =>
      if id !in s.quotes {
        AddKeepsInv(s, pod, id, terms, insertFails, true);
      }
    case Refill(r) => RefillKeepsInv(s, r);
    case CasDb(r, replyLost) => CasDbKeepsInv(s, r, replyLost);
    case CasMem(r) => CasMemKeepsInv(s, r);
    case Lapse(r) => LapseKeepsInv(s, r);
    case LapseDb(r) => LapseKeepsInv(s, r);
    case SpotStart(r, pod, id, terms, insertFails) =>
      if r !in s.started && id !in s.quotes {
        SpotKeepsInv(s, r, pod, id, terms, insertFails);
      }
    case SpotDone(r) => SpotDoneKeepsInv(s, r);
    case Abandon(r) => DoneKeepsInv(s, r);
    case CrashPod(pod) => CrashKeepsInv(s, pod);
    case _ => LoadStepKeepsInv(s, step);
  }

  lemma {:induction false} EveryRunKeepsInv(hasDb: bool, clock: int, steps: seq<Step>)
    ensures Inv(Run(Initial(hasDb, clock), steps))
  {
    if steps != [] {
      var s, step := Run(Initial(hasDb, clock), steps[..|steps| - 1]), steps[|steps| - 1];
      EveryRunKeepsInv(hasDb, clock, steps[..|steps| - 1]);
      StepKeepsInv(s, step);
    }
  }

  /** Under any interleaving, a quote held by a client is consumed by at most one conversion, not after its expiry, and
      at exactly the quoted terms. */
  lemma QuoteConsumedOnce(hasDb: bool, clock: int, steps: seq<Step>, id: string)
    ensures var s := Run(Initial(hasDb, clock), steps);
            id in s.quotes && s.quotes[id].held ==>
              && (forall i, j :: 0 <= i < j < |s.conversions| ==>
                  !(s.conversions[i].id == id && s.conversions[j].id == id))
              && (forall i :: 0 <= i < |s.conversions| && s.conversions[i].id == id ==>
                    && s.conversions[i].terms == s.quotes[id].terms
                    && Agrees(s.conversions[i].terms, s.conversions[i].purpose)
                    && id in s.wins && s.wins[id].request == s.conversions[i].request
                    && s.wins[id].at <= s.quotes[id].terms.expiresAt)
  {
    EveryRunKeepsInv(hasDb, clock, steps);
    var s := Run(Initial(hasDb, clock), steps);
    forall i | 0 <= i < |s.conversions| && s.conversions[i].id == id
      ensures ConversionFits(s, s.conversions[i]) && (id in s.wins ==> Taken(s, id))
    {
    }
  }

  // ---- an active quote can be consumed ----

  lemma RunSnoc(s: World, steps: seq<Step>, step: Step)
    ensures Run(s, steps + [step]) == Apply(Run(s, steps), step)
  {
    assert (steps + [step])[..|steps|] == steps;
  }

  /** The quote is active where that counts. */
  ghost predicate Available(s: World, pod: nat, id: string) {
    && id in s.quotes && s.clock < s.quotes[id].terms.expiresAt
    && ((pod, id) in s.mem ==> s.mem[(pod, id)] == QuoteDoc(s.quotes[id].terms, Active))
    && (if s.hasDb then id in s.db && s.db[id] == QuoteDoc(s.quotes[id].terms, Active) else (pod, id) in s.mem)
  }

  /** A worker of the request holds a copy of the quote, which its pod's memory has. */
  ghost predicate Holds(s: World, r: nat, pod: nat, id: string, p: Purpose, stage: Stage) {
    r in s.workers && s.workers[r] == Worker(pod, id, p, stage) && (pod, id) in s.mem
  }

  lemma Load(s: World, r: nat, pod: nat, id: string, p: Purpose) returns (steps: seq<Step>)
    requires Available(s, pod, id) && r !in s.started
    ensures var s' := Run(s, steps);
            && Available(s', pod, id) && Holds(s', r, pod, id, p, Loaded(QuoteDoc(s.quotes[id].terms, Active)))
            && s'.conversions == s.conversions && s'.hasDb == s.hasDb && s'.quotes == s.quotes
  {
    var start := Start(r, pod, id, p);
    RunSnoc(s, [], start);
    assert [] + [start] == [start];
    steps := [start];
    if (pod, id) !in s.mem {
      steps := [start] + [ReadDb(r)] + [Refill(r)];
      Fetch(s, r, pod, id, p);
      hide Apply;
      RunSnoc(s, [start], ReadDb(r));
      RunSnoc(s, [start] + [ReadDb(r)], Refill(r));
    }
  }

  lemma Fetch(s: World, r: nat, pod: nat, id: string, p: Purpose)
    requires Available(s, pod, id) && r !in s.started && (pod, id) !in s.mem
    ensures var s' := Apply(Apply(Apply(s, Start(r, pod, id, p)), ReadDb(r)), Refill(r));
            && Available(s', pod, id) && Holds(s', r, pod, id, p, Loaded(QuoteDoc(s.quotes[id].terms, Active)))
            && s'.conversions == s.conversions && s'.hasDb == s.hasDb && s'.quotes == s.quotes
  {
  }

  lemma Consume(s: World, r: nat, pod: nat, id: string, p: Purpose) returns (steps: seq<Step>)
    requires Available(s, pod, id) && Agrees(s.quotes[id].terms, p)
    requires Holds(s, r, pod, id, p, Loaded(QuoteDoc(s.quotes[id].terms, Active)))
    ensures Run(s, steps).conversions == s.conversions + [Conversion(r, id, p, s.quotes[id].terms, false)]
  {
    RunSnoc(s, [], Check(r));
    assert [] + [Check(r)] == [Check(r)];
    if s.hasDb {
      steps := [Check(r)] + [CasDb(r, false)] + [CasMem(r)];
      ConsumeDb(s, r, pod, id, p);
      hide Apply;
      RunSnoc(s, [Check(r)], CasDb(r, false));
      RunSnoc(s, [Check(r)] + [CasDb(r, false)], CasMem(r));
    } else {
      steps := [Check(r)] + [CasMem(r)];
      RunSnoc(s, [Check(r)], CasMem(r));
    }
  }

  lemma ConsumeDb(s: World, r: nat, pod: nat, id: string, p: Purpose)
    requires Available(s, pod, id) && s.hasDb && Agrees(s.quotes[id].terms, p)
    requires Holds(s, r, pod, id, p, Loaded(QuoteDoc(s.quotes[id].terms, Active)))
    ensures Apply(Apply(Apply(s, Check(r)), CasDb(r, false)), CasMem(r)).conversions
            == s.conversions + [Conversion(r, id, p, s.quotes[id].terms, false)]
  {
  }

  /** A request that agrees with an active quote can consume it before it expires, on any pod that can see it. */
  lemma ActiveQuoteConverts(s: World, r: nat, pod: nat, id: string, p: Purpose) returns (steps: seq<Step>)
    requires Available(s, pod, id) && r !in s.started && Agrees(s.quotes[id].terms, p)
    ensures Run(s, steps).conversions == s.conversions + [Conversion(r, id, p, s.quotes[id].terms, false)]
  {
    var loading := Load(s, r, pod, id, p);
    hide Apply, Available, Holds;
    var consuming := Consume(Run(s, loading), r, pod, id, p);
    RunConcat(s, loading, consuming);
    steps := loading + consuming;
  }

  lemma {:induction false} RunConcat(s: World, xs: seq<Step>, ys: seq<Step>)
    ensures Run(s, xs + ys) == Run(Run(s, xs), ys)
  {
    hide Apply;
    if ys == [] {
      assert xs + ys == xs;
    } else {
      RunConcat(s, xs, ys[..|ys| - 1]);
      assert (xs + ys)[..|xs + ys| - 1] == xs + ys[..|ys| - 1];
    }
  }

  // ---- EXPIRED over EXECUTED ----

  /** A reader that copied the quote while it was active marks it expired after it was executed; the one conversion
      stands. */
  lemma ExpiredOverExecuted(id: string, terms: Terms) returns (steps: seq<Step>)
    ensures var s := Run(Initial(true, terms.expiresAt - 1), steps);
            && |s.conversions| == 1 && s.conversions[0].id == id && s.conversions[0].terms == terms
            && id in s.db && s.db[id].status.Expired?
  {
    var s0 := Initial(true, terms.expiresAt - 1);
    var opening := [Issue(0, id, terms, false), Start(0, 0, id, Convert("", "", 0)), Start(1, 0, id, Show), Check(0)];
    var s4 := Opening(id, terms);
    Executes(s4, id, terms);
    var s6 := Apply(Apply(s4, CasDb(0, false)), CasMem(0));
    ReaderExpires(s6, id, terms);
    var now := terms.expiresAt + 1;
    steps := opening + [CasDb(0, false)] + [CasMem(0)] + [Tick(now)] + [Lapse(1)] + [LapseDb(1)];
    hide Apply;
    RunSnoc(s0, opening, CasDb(0, false));
    RunSnoc(s0, opening + [CasDb(0, false)], CasMem(0));
    RunSnoc(s0, opening + [CasDb(0, false)] + [CasMem(0)], Tick(now));
    RunSnoc(s0, opening + [CasDb(0, false)] + [CasMem(0)] + [Tick(now)], Lapse(1));
    RunSnoc(s0, opening + [CasDb(0, false)] + [CasMem(0)] + [Tick(now)] + [Lapse(1)], LapseDb(1));
  }

  lemma Executes(s: World, id: string, terms: Terms)
    requires s.hasDb && s.clock == terms.expiresAt - 1 && s.db == map[id := QuoteDoc(terms, Active)]
    requires s.mem == map[(0, id) := QuoteDoc(terms, Active)] && s.conversions == [] && 0 in s.workers && 1 in s.workers
    requires s.workers[0] == Worker(0, id, Convert("", "", 0), Checked(QuoteDoc(terms, Active)))
    ensures var s' := Apply(Apply(s, CasDb(0, false)), CasMem(0));
            && s'.conversions == [Conversion(0, id, Convert("", "", 0), terms, false)]
            && s'.db == map[id := QuoteDoc(terms, Executed)]
            && s'.clock == s.clock && 1 in s'.workers && s'.workers[1] == s.workers[1]
  {
  }

  lemma ReaderExpires(s: World, id: string, terms: Terms)
    requires s.clock == terms.expiresAt - 1 && s.db == map[id := QuoteDoc(terms, Executed)] && 1 in s.workers
    requires s.workers[1] == Worker(0, id, Show, Loaded(QuoteDoc(terms, Active)))
    ensures var s' := Apply(Apply(Apply(s, Tick(terms.expiresAt + 1)), Lapse(1)), LapseDb(1));
            s'.conversions == s.conversions && s'.db == map[id := QuoteDoc(terms, Expired)]
  {
  }

  lemma Opening(id: string, terms: Terms) returns (s: World)
    ensures s == Run(Initial(true, terms.expiresAt - 1),
                     [Issue(0, id, terms, false), Start(0, 0, id, Convert("", "", 0)), Start(1, 0, id, Show), Check(0)])
    ensures s.hasDb && s.clock == terms.expiresAt - 1 && s.db == map[id := QuoteDoc(terms, Active)]
    ensures s.mem == map[(0, id) := QuoteDoc(terms, Active)] && s.conversions == []
    ensures s.workers == map[0 := Worker(0, id, Convert("", "", 0), Checked(QuoteDoc(terms, Active))),
                             1 := Worker(0, id, Show, Loaded(QuoteDoc(terms, Active)))]
  {
    var s0 := Initial(true, terms.expiresAt - 1);
    var a, b, c, d := Issue(0, id, terms, false), Start(0, 0, id, Convert("", "", 0)), Start(1, 0, id, Show), Check(0);
    s := Apply(Apply(Apply(Apply(s0, a), b), c), d);
    Chooses(Apply(s0, a), id, terms);
    hide Apply;
    RunSnoc(s0, [], a);
    RunSnoc(s0, [a], b);
    RunSnoc(s0, [a, b], c);
    RunSnoc(s0, [a, b, c], d);
    assert [] + [a] == [a] && [a] + [b] == [a, b] && [a, b] + [c] == [a, b, c] && [a, b, c] + [d] == [a, b, c, d];
  }

  lemma Chooses(s: World, id: string, terms: Terms)
    requires s.mem == map[(0, id) := QuoteDoc(terms, Active)] && s.workers == map[] && s.started == {}
             && s.clock <= terms.expiresAt
    ensures var s' := Apply(Apply(Apply(s, Start(0, 0, id, Convert("", "", 0))), Start(1, 0, id, Show)), Check(0));
            && s'.hasDb == s.hasDb && s'.clock == s.clock && s'.db == s.db && s'.mem == s.mem
            && s'.conversions == s.conversions
            && s'.workers == map[0 := Worker(0, id, Convert("", "", 0), Checked(QuoteDoc(terms, Active))),
                                 1 := Worker(0, id, Show, Loaded(QuoteDoc(terms, Active)))]
  {
  }
}
