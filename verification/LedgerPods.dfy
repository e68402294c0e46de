/** Many ledger pods appending to one collection (cmd/ledger-service/main.go:108-335, pkg/db/indexes.go:18-43). */
module LedgerPods {
  import opened Hashing
  import opened Encoding
  import opened Postings
  import opened Currency
  import opened AuditChain

  datatype Request = Request(txId: string, key: string, source: string, destination: string,
                             amount: int, currency: string, destAmount: int, destCurrency: string)

  /** The checks before the collection is touched. */
  predicate Wellformed(req: Request) {
    && req.key != ""
    && ValidateAmount(req.amount, req.currency)
    && (req.destCurrency != "" && req.destCurrency != req.currency ==> ValidateAmount(req.destAmount, req.destCurrency))
  }

  predicate HasPostings(req: Request) {
    Postable(req.source, req.destination, req.amount, req.currency)
  }

  function Legs(req: Request): seq<Posting> {
    TransferLegs(req.source, req.destination, req.amount, req.currency, req.destAmount, req.destCurrency)
  }

  predicate IsObjectId(s: string) {
    |s| == 24 && forall i :: 0 <= i < |s| ==> IsHexDigit(ToLower(s[i]))
  }

  /** parseTransactionDocID: the id itself when it is one, a new one otherwise. */
  function DocId(txId: string, newId: string): string {
    if IsObjectId(txId) then seq(|txId|, i requires 0 <= i < |txId| => ToLower(txId[i])) else newId
  }

  function NewDocument(sha: Sha, req: Request, docId: string, sequence: int, previousHash: string,
                       now: int): LedgerDocument {
    LedgerDocument(docId, sequence, req.key, req.source, req.destination, req.amount, req.currency,
                   req.destAmount, req.destCurrency, Millis(now), Legs(req), previousHash,
                   ComputeEntryHash(sha, previousHash, sequence, docId, req.key, Millis(now), Legs(req)))
  }

  /** The document with the greatest positive sequence number. */
  function Newest(docs: seq<LedgerDocument>): Option<LedgerDocument> {
    if docs == [] then None
    else
      var last, rest := docs[|docs| - 1], Newest(docs[..|docs| - 1]);
      if last.sequence > 0 && (rest.None? || rest.value.sequence < last.sequence) then Some(last) else rest
  }

  /** getPreviousSequenceAndHash; a failing query looks like an empty collection. */
  function NextLink(docs: seq<LedgerDocument>, readFails: bool): (int, string) {
    var newest := Newest(docs);
    if readFails || newest.None? then (1, GENESIS)
    else (newest.value.sequence + 1, if newest.value.entryHash != "" then newest.value.entryHash else GENESIS)
  }

  /** The unique indexes on _id, idempotency_key and sequence_number. */
  predicate Insertable(docs: seq<LedgerDocument>, doc: LedgerDocument) {
    forall i :: 0 <= i < |docs| ==> docs[i].id != doc.id && docs[i].key != doc.key && docs[i].sequence != doc.sequence
  }

  // ---- interleaved pods ----

  /** The collection, and for each pod between its read and its insert the document it will insert. */
  datatype State = State(docs: seq<LedgerDocument>, pods: map<nat, LedgerDocument>)

  datatype Step =
    | Read(pod: nat, req: Request, docId: string, now: int, readFails: bool)
    | Insert(pod: nat)
    | Crash(pod: nat)

  function Apply(sha: Sha, s: State, step: Step): State {
    match step
    case Read(pod, req, docId, now, readFails) =>
      if Wellformed(req) && HasPostings(req) then
        var link := NextLink(s.docs, readFails);
        s.(pods := s.pods[pod := NewDocument(sha, req, docId, link.0, link.1, now)])
      else s
    case Insert(pod) =>
      if pod in s.pods then
        State(if Insertable(s.docs, s.pods[pod]) then s.docs + [s.pods[pod]] else s.docs, s.pods - {pod})
      else s
    case Crash(pod) => s.(pods := s.pods - {pod})
  }

  function Run(sha: Sha, s: State, steps: seq<Step>): State {
    if steps == [] then s else Apply(sha, Run(sha, s, steps[..|steps| - 1]), steps[|steps| - 1])
  }

  const EMPTY := State([], map[])

  // ---- the invariant ----

  ghost predicate UniqueKeysAndIds(docs: seq<LedgerDocument>) {
    forall i, j :: 0 <= i < j < |docs| ==> docs[i].key != docs[j].key && docs[i].id != docs[j].id
  }

  /** A document is sealed, balanced, and posts what its own fields say. */
  ghost predicate Sound(sha: Sha, d: LedgerDocument) {
    && d.entryHash == sha(DocInput(d))
    && d.entryHash != ""
    && Valid(d.postings)
    && d.postings == TransferLegs(d.source, d.destination, d.amount, d.currency, d.destAmount, d.destCurrency)
  }

  /** It continues the chain as it was after some prefix of the present collection. */
  ghost predicate ContinuesPrefix(docs: seq<LedgerDocument>, d: LedgerDocument) {
    1 <= d.sequence <= |docs| + 1 && d.previousHash == HashBefore(docs, d.sequence - 1)
  }

  ghost predicate Inv(sha: Sha, s: State) {
    && IsChain(sha, s.docs)
    && UniqueKeysAndIds(s.docs)
    && (forall i :: 0 <= i < |s.docs| ==> Sound(sha, s.docs[i]))
    && (forall p :: p in s.pods ==> Sound(sha, s.pods[p]) && ContinuesPrefix(s.docs, s.pods[p]))
  }

  lemma {:induction false} NewestOfChain(sha: Sha, docs: seq<LedgerDocument>)
    requires IsChain(sha, docs)
    ensures Newest(docs) == if docs == [] then None else Some(docs[|docs| - 1])
  {
    if docs != [] {
      ChainLinks(sha, docs, |docs| - 1);
      ChainPrefix(sha, docs, |docs| - 1);
      NewestOfChain(sha, docs[..|docs| - 1]);
      if |docs| > 1 {
        ChainLinks(sha, docs, |docs| - 2);
      }
    }
  }

  lemma NextLinkContinues(sha: Sha, docs: seq<LedgerDocument>, readFails: bool)
    requires IsChain(sha, docs) && forall i :: 0 <= i < |docs| ==> Sound(sha, docs[i])
    ensures var link := NextLink(docs, readFails);
            1 <= link.0 <= |docs| + 1 && link.1 == HashBefore(docs, link.0 - 1)
            && (!readFails ==> link.0 == |docs| + 1)
  {
    NewestOfChain(sha, docs);
    if docs != [] {
      ChainLinks(sha, docs, |docs| - 1);
    }
  }

  lemma NewDocumentIsSound(sha: Sha, req: Request, docId: string, sequence: int, previousHash: string, now: int)
    requires IsSha(sha) && HasPostings(req)
    ensures Sound(sha, NewDocument(sha, req, docId, sequence, previousHash, now))
  {
    TransferLegsBalance(req.source, req.destination, req.amount, req.currency, req.destAmount, req.destCurrency);
    var d := NewDocument(sha, req, docId, sequence, previousHash, now);
    assert Millis(Millis(now)) == Millis(now);
    ShaIsDigest(sha, DocInput(d));
  }

  /** The unique index on the sequence number lets in only a document that extends the whole chain. */
  lemma InsertableContinuesHead(sha: Sha, docs: seq<LedgerDocument>, d: LedgerDocument)
    requires IsChain(sha, docs) && Sound(sha, d) && ContinuesPrefix(docs, d) && Insertable(docs, d)
    ensures d.sequence == |docs| + 1 && IsChain(sha, docs + [d])
  {
    if d.sequence <= |docs| {
      ChainLinks(sha, docs, d.sequence - 1);
    }
    var longer := docs + [d];
    assert longer[..|docs|] == docs;
    assert Intact(sha, longer[|docs|], |docs| + 1, HashBefore(longer, |docs|));
    assert IntactAt(sha, longer, |docs|);
    ChainExtend(sha, longer, |docs|);
    assert longer[..|docs| + 1] == longer;
  }

  lemma ContinuesLonger(docs: seq<LedgerDocument>, d: LedgerDocument, x: LedgerDocument)
    requires ContinuesPrefix(docs, d)
    ensures ContinuesPrefix(docs + [x], d)
  {
  }

  lemma StepKeepsInv(sha: Sha, s: State, step: Step)
    requires IsSha(sha) && Inv(sha, s)
    ensures Inv(sha, Apply(sha, s, step))
  {
    hide Sound, IsChain, Wellformed, HasPostings, Legs;
    match step
    case Read(pod, req, docId, now, readFails) =>
      if Wellformed(req) && HasPostings(req) {
        NextLinkContinues(sha, s.docs, readFails);
        var link := NextLink(s.docs, readFails);
        NewDocumentIsSound(sha, req, docId, link.0, link.1, now);
      }
    case Insert(pod) =>
      if pod in s.pods && Insertable(s.docs, s.pods[pod]) {
        InsertKeepsInv(sha, s, pod);
      }
    case Crash(_) =>
  }

  lemma InsertKeepsInv(sha: Sha, s: State, pod: nat)
    requires Inv(sha, s) && pod in s.pods && Insertable(s.docs, s.pods[pod])
    ensures Inv(sha, State(s.docs + [s.pods[pod]], s.pods - {pod}))
  {
    var d := s.pods[pod];
    InsertableContinuesHead(sha, s.docs, d);
    forall p | p in s.pods - {pod} ensures ContinuesPrefix(s.docs + [d], s.pods[p]) {
      ContinuesLonger(s.docs, s.pods[p], d);
    }
  }

  /** From any such state, the collection stays a chain 1..n with unique keys and ids, every entry balanced:
      VerifyAuditChain says VERIFIED. Reads may be stale or fail; only the indexes protect the chain. */
  lemma {:induction false} EveryRunVerifies(sha: Sha, s: State, steps: seq<Step>)
    requires IsSha(sha) && Inv(sha, s)
    ensures Inv(sha, Run(sha, s, steps))
    ensures s.docs <= Run(sha, s, steps).docs
  {
    if steps != [] {
      EveryRunVerifies(sha, s, steps[..|steps| - 1]);
      StepKeepsInv(sha, Run(sha, s, steps[..|steps| - 1]), steps[|steps| - 1]);
    }
  }

  /** In every reachable state the ledger verifies, and its debits equal its credits exactly, not only modulo 2^64. */
  lemma EveryReachableLedgerVerifies(sha: Sha, steps: seq<Step>)
    requires IsSha(sha)
    ensures var docs := Run(sha, EMPTY, steps).docs;
            && IsChain(sha, docs) && UniqueKeysAndIds(docs)
            && (forall i :: 0 <= i < |docs| ==> docs[i].sequence == i + 1)
            && (forall c :: Total(AllPostings(docs), DEBIT, c) == Total(AllPostings(docs), CREDIT, c))
  {
    EveryRunVerifies(sha, EMPTY, steps);
    var docs := Run(sha, EMPTY, steps).docs;
    forall i | 0 <= i < |docs| ensures docs[i].sequence == i + 1 {
      ChainLinks(sha, docs, i);
    }
    forall c ensures Total(AllPostings(docs), DEBIT, c) == Total(AllPostings(docs), CREDIT, c) {
      LedgerBalancesExactly(sha, docs, c);
    }
  }

  lemma {:induction false} LedgerBalancesExactly(sha: Sha, docs: seq<LedgerDocument>, c: string)
    requires forall i :: 0 <= i < |docs| ==> Sound(sha, docs[i])
    ensures Total(AllPostings(docs), DEBIT, c) == Total(AllPostings(docs), CREDIT, c)
  {
    if docs != [] {
      var front, d := docs[..|docs| - 1], docs[|docs| - 1];
      LedgerBalancesExactly(sha, front, c);
      TotalConcat(AllPostings(front), d.postings, DEBIT, c);
      TotalConcat(AllPostings(front), d.postings, CREDIT, c);
      TransferLegsBalance(d.source, d.destination, d.amount, d.currency, d.destAmount, d.destCurrency);
    }
  }

  /** Seen from the collection, a run is a series of atomic appends at the head. */
  lemma StepAppendsAtHead(sha: Sha, s: State, step: Step)
    requires Inv(sha, s)
    ensures var docs' := Apply(sha, s, step).docs;
            docs' == s.docs || (docs' == s.docs + [docs'[|docs'| - 1]] && docs'[|docs'| - 1].sequence == |s.docs| + 1)
  {
    if step.Insert? && step.pod in s.pods && Insertable(s.docs, s.pods[step.pod]) {
      InsertableContinuesHead(sha, s.docs, s.pods[step.pod]);
    }
  }

  // ---- one pod's RecordTransaction ----

  function Find(docs: seq<LedgerDocument>, key: string): (r: Option<LedgerDocument>)
    ensures r.Some? ==> r.value in docs && r.value.key == key
    ensures r.None? ==> forall i :: 0 <= i < |docs| ==> docs[i].key != key
  {
    if docs == [] then None else if docs[0].key == key then Some(docs[0]) else Find(docs[1..], key)
  }

  /** FindOne by idempotency key; a failing query looks like an absent key. */
  function EntryOf(docs: seq<LedgerDocument>, key: string, fails: bool): Option<LedgerDocument> {
    if fails then None else Find(docs, key)
  }

  /** The shared collection together with what the other pods are about to insert. */
  class LedgerCollection {
    var docs: seq<LedgerDocument>
    var others: map<nat, LedgerDocument>

    function Now(): State
      reads this
    {
      State(docs, others)
    }

    constructor ()
      ensures Now() == EMPTY
    {
      docs, others := [], map[];
    }

    method InsertOne(doc: LedgerDocument) returns (inserted: bool)
      modifies `docs
      ensures inserted == Insertable(old(docs), doc)
      ensures docs == if inserted then old(docs) + [doc] else old(docs)
    {
      inserted := true;
      for i := 0 to |docs|
        invariant inserted == Insertable(docs[..i], doc)
        invariant docs == old(docs)
      {
        var d := docs[i];
        assert docs[..i + 1] == docs[..i] + [d];
        if d.id == doc.id || d.key == doc.key || d.sequence == doc.sequence {
          inserted := false;
        }
      }
      assert docs[..|docs|] == docs;
      if inserted {
        docs := docs + [doc];
      }
    }

    method FindByKey(key: string, fails: bool) returns (r: Option<LedgerDocument>)
      ensures r == EntryOf(docs, key, fails)
    {
      if fails {
        return None;
      }
      for i := 0 to |docs|
        invariant Find(docs, key) == Find(docs[i..], key)
      {
        if docs[i].key == key {
          return Some(docs[i]);
        }
        assert docs[i..][1..] == docs[i + 1..];
      }
      return None;
    }

    /** The other pods run for a while. */
    method Interfere(sha: Sha, steps: seq<Step>)
      modifies this
      ensures Now() == Run(sha, old(Now()), steps)
    {
      var s := Run(sha, Now(), steps);
      docs, others := s.docs, s.pods;
    }
  }

  /** An insert may fail for another reason than a duplicate, without or with its effect. */
  datatype Fault = NoFault | NotWritten | AckLost

  /** What one attempt meets: faults, and the steps other pods take before its read, before its insert, and before the
      lookup that follows a duplicate. */
  datatype Attempt = Attempt(before: seq<Step>, readFails: bool, between: seq<Step>, now: int, fault: Fault,
                             after: seq<Step>, lookupFails: bool)

  /** What a whole call meets; the outbox is appended to after the insert. */
  datatype Weather = Weather(firstLookupFails: bool, schedule: seq<Attempt>, lastLookupFails: bool, outboxFails: bool)

  datatype Response = InvalidArgument | Recorded(transactionId: string) | NotRecorded

  const MAX_INSERT_RETRIES := 5

  ghost predicate HasEntry(docs: seq<LedgerDocument>, key: string, id: string) {
    exists i :: 0 <= i < |docs| && docs[i].key == key && docs[i].id == id
  }

  datatype Outcome = Inserted | Duplicate | Faulty

  /** One attempt in a state: what it meets at the index, and the state it leaves. */
  ghost function Attempted(sha: Sha, s: State, req: Request, docId: string, a: Attempt): (Outcome, State) {
    var here := Run(sha, s, a.before);
    var doc := AttemptedDocument(sha, here.docs, req, docId, a);
    var mid := Run(sha, here, a.between);
    var fits := Insertable(mid.docs, doc);
    var written := if fits && !a.fault.NotWritten? then State(mid.docs + [doc], mid.pods) else mid;
    (if !a.fault.NoFault? then Faulty else if fits then Inserted else Duplicate, written)
  }

  function AttemptedDocument(sha: Sha, docs: seq<LedgerDocument>, req: Request, docId: string,
                             a: Attempt): LedgerDocument {
    var link := NextLink(docs, a.readFails);
    NewDocument(sha, req, docId, link.0, link.1, a.now)
  }

  /** The retry loop, and the lookup when it is exhausted. */
  ghost function Retried(sha: Sha, s: State, req: Request, docId: string, w: Weather): (Response, State)
    decreases |w.schedule|
  {
    if w.schedule == [] then
      var dup := EntryOf(s.docs, req.key, w.lastLookupFails);
      (if dup.Some? then Recorded(dup.value.id) else NotRecorded, s)
    else
      var (outcome, s') := Attempted(sha, s, req, docId, w.schedule[0]);
      match outcome
      case Inserted => (if w.outboxFails then NotRecorded else Recorded(docId), s')
      case Faulty => (NotRecorded, s')
      case Duplicate =>
        var later := Run(sha, s', w.schedule[0].after);
        var dup := EntryOf(later.docs, req.key, w.schedule[0].lookupFails);
        if dup.Some? then (Recorded(dup.value.id), later)
        else Retried(sha, later, req, docId, w.(schedule := w.schedule[1..]))
  }

  /** The whole call. */
  ghost function Served(sha: Sha, s: State, req: Request, newId: string, w: Weather): (Response, State) {
    var existing := EntryOf(s.docs, req.key, w.firstLookupFails);
    if !Wellformed(req) then (InvalidArgument, s)
    else if existing.Some? then (Recorded(existing.value.id), s)
    else if !HasPostings(req) then (InvalidArgument, s)
    else Retried(sha, s, req, DocId(req.txId, newId), w)
  }

  // ---- what a call keeps ----

  lemma AttemptKeepsInv(sha: Sha, s: State, req: Request, docId: string, a: Attempt)
    requires IsSha(sha) && Inv(sha, s) && HasPostings(req)
    ensures var (outcome, s') := Attempted(sha, s, req, docId, a);
            Inv(sha, s') && s.docs <= s'.docs && (outcome.Inserted? ==> HasEntry(s'.docs, req.key, docId))
  {
    var here := Run(sha, s, a.before);
    EveryRunVerifies(sha, s, a.before);
    var doc := AttemptedDocument(sha, here.docs, req, docId, a);
    var mid := Run(sha, here, a.between);
    NextLinkContinues(sha, here.docs, a.readFails);
    NewDocumentIsSound(sha, req, docId, NextLink(here.docs, a.readFails).0, NextLink(here.docs, a.readFails).1, a.now);
    hide Sound, IsChain, NextLink, Insertable, HasPostings, Run;
    EveryRunVerifies(sha, here, a.between);
    ContinuesRun(here.docs, mid.docs, doc);
    if Insertable(mid.docs, doc) {
      OwnInsertKeepsInv(sha, mid, doc);
      assert (mid.docs + [doc])[|mid.docs|] == doc;
    }
  }

  lemma {:induction false} RetriesKeepInv(sha: Sha, s: State, req: Request, docId: string, w: Weather)
    requires IsSha(sha) && Inv(sha, s) && HasPostings(req)
    ensures var (resp, s') := Retried(sha, s, req, docId, w);
            && Inv(sha, s') && s.docs <= s'.docs && !resp.InvalidArgument?
            && (resp.Recorded? ==> HasEntry(s'.docs, req.key, resp.transactionId))
    decreases |w.schedule|
  {
    hide Inv, Attempted, HasPostings, Run, IsSha;
    if w.schedule != [] {
      var a := w.schedule[0];
      var (outcome, s') := Attempted(sha, s, req, docId, a);
      AttemptKeepsInv(sha, s, req, docId, a);
      var later := Run(sha, s', a.after);
      EveryRunVerifies(sha, s', a.after);
      if outcome.Duplicate? && EntryOf(later.docs, req.key, a.lookupFails).None? {
        RetriesKeepInv(sha, later, req, docId, w.(schedule := w.schedule[1..]));
      }
    }
  }

  /** Whatever the other pods do meanwhile and whatever fails, the chain stays a chain, nothing is lost, a refused
      request changes nothing, a stored key is answered without a write, and an id is returned only if the entry of
      that key and id is in the collection. */
  lemma ServedIsSafe(sha: Sha, s: State, req: Request, newId: string, w: Weather)
    requires IsSha(sha) && Inv(sha, s)
    ensures var (resp, s') := Served(sha, s, req, newId, w);
            && Inv(sha, s') && s.docs <= s'.docs
            && (resp.Recorded? ==> HasEntry(s'.docs, req.key, resp.transactionId))
            && (resp.InvalidArgument? ==> s' == s && !(Wellformed(req) && HasPostings(req)))
            && (Wellformed(req) && !w.firstLookupFails
                && (exists i :: 0 <= i < |s.docs| && s.docs[i].key == req.key) ==>
                  resp.Recorded? && s' == s)
  {
    hide Inv, Wellformed, HasPostings, Retried, IsSha;
    if HasPostings(req) {
      RetriesKeepInv(sha, s, req, DocId(req.txId, newId), w);
    }
  }

  // ---- when a call records ----

  /** The document id is no other transaction's. */
  ghost predicate IdIsFree(docs: seq<LedgerDocument>, key: string, docId: string) {
    forall i :: 0 <= i < |docs| && docs[i].id == docId ==> docs[i].key == key
  }

  /** Of an attempt whose read succeeded: it hits the index on the sequence number only if other pods have appended
      since its read. */
  lemma DuplicateMeansRace(sha: Sha, s: State, req: Request, docId: string, a: Attempt)
    requires IsSha(sha) && Inv(sha, s) && HasPostings(req) && !a.readFails
    requires Attempted(sha, s, req, docId, a).0.Duplicate?
    ensures var s' := Attempted(sha, s, req, docId, a).1;
            IdIsFree(s'.docs, req.key, docId) ==>
              || (exists i :: 0 <= i < |s'.docs| && s'.docs[i].key == req.key)
              || |s'.docs| > |Run(sha, s, a.before).docs|
  {
    var here := Run(sha, s, a.before);
    EveryRunVerifies(sha, s, a.before);
    NextLinkContinues(sha, here.docs, false);
    var mid := Run(sha, here, a.between);
    EveryRunVerifies(sha, here, a.between);
    forall i | 0 <= i < |mid.docs| ensures mid.docs[i].sequence == i + 1 {
      ChainLinks(sha, mid.docs, i);
    }
    hide Sound, IsChain, NextLink, Run;
  }

  /** An attempt that meets no fault, and no other pod between its read and its insert. */
  predicate Calm(a: Attempt) {
    !a.readFails && a.between == [] && a.fault.NoFault? && !a.lookupFails
  }

  /** Undisturbed, a new key is recorded at the head with the next number and the link to the last entry. */
  lemma CalmAttemptInserts(sha: Sha, s: State, req: Request, docId: string, a: Attempt)
    requires IsSha(sha) && Inv(sha, s) && Calm(a)
    requires var docs := Run(sha, s, a.before).docs;
             forall i :: 0 <= i < |docs| ==> docs[i].key != req.key && docs[i].id != docId
    ensures var docs := Run(sha, s, a.before).docs;
            && Attempted(sha, s, req, docId, a).0.Inserted?
            && Attempted(sha, s, req, docId, a).1.docs
               == docs + [NewDocument(sha, req, docId, |docs| + 1, HashBefore(docs, |docs|), a.now)]
  {
    hide IsSha, Inv, Run, Attempted, NewDocument, Insertable, HashBefore, Calm;
    var here := Run(sha, s, a.before);
    EveryRunVerifies(sha, s, a.before);
    HeadFits(sha, here, req, docId, a.now);
    CalmAttempt(sha, s, req, docId, a, here);
  }

  lemma CalmAttempt(sha: Sha, s: State, req: Request, docId: string, a: Attempt, here: State)
    requires Calm(a) && here == Run(sha, s, a.before)
    requires var link := NextLink(here.docs, false);
             Insertable(here.docs, NewDocument(sha, req, docId, link.0, link.1, a.now))
    ensures var link := NextLink(here.docs, false);
            Attempted(sha, s, req, docId, a)
            == (Inserted, State(here.docs + [NewDocument(sha, req, docId, link.0, link.1, a.now)], here.pods))
  {
    assert Run(sha, here, []) == here;
    hide Run, NextLink, NewDocument, Insertable;
  }

  lemma HeadFits(sha: Sha, s: State, req: Request, docId: string, now: int)
    requires Inv(sha, s) && forall i :: 0 <= i < |s.docs| ==> s.docs[i].key != req.key && s.docs[i].id != docId
    ensures NextLink(s.docs, false) == (|s.docs| + 1, HashBefore(s.docs, |s.docs|))
    ensures Insertable(s.docs, NewDocument(sha, req, docId, |s.docs| + 1, HashBefore(s.docs, |s.docs|), now))
  {
    NextLinkContinues(sha, s.docs, false);
    forall i | 0 <= i < |s.docs| ensures s.docs[i].sequence != |s.docs| + 1 {
      ChainLinks(sha, s.docs, i);
    }
    hide Sound, IsChain, NextLink;
  }

  /** A calm attempt inserts the entry or finds it. */
  lemma CalmAttemptSettles(sha: Sha, s: State, req: Request, docId: string, a: Attempt)
    requires IsSha(sha) && Inv(sha, s) && HasPostings(req) && Calm(a)
    requires var s' := Attempted(sha, s, req, docId, a).1; IdIsFree(s'.docs, req.key, docId)
    ensures var (outcome, s') := Attempted(sha, s, req, docId, a);
            outcome.Inserted? || (outcome.Duplicate? && exists i :: 0 <= i < |s'.docs| && s'.docs[i].key == req.key)
  {
    var here := Run(sha, s, a.before);
    assert Run(sha, here, a.between) == here;
    hide Inv, HasPostings, IsSha, Run, NextLink, Insertable;
    if Attempted(sha, s, req, docId, a).0.Duplicate? {
      DuplicateMeansRace(sha, s, req, docId, a);
    }
  }

  /** If some attempt is calm and the earlier ones ended in duplicates, the call answers with an entry of the key. */
  lemma {:induction false} CalmAttemptRecords(sha: Sha, s: State, req: Request, docId: string, w: Weather, k: nat)
    requires IsSha(sha) && Inv(sha, s) && HasPostings(req)
    requires k < |w.schedule| && Calm(w.schedule[k]) && !w.outboxFails
    requires forall j :: 0 <= j < k ==> w.schedule[j].fault.NoFault?
    requires IdIsFree(Retried(sha, s, req, docId, w).1.docs, req.key, docId)
    ensures Retried(sha, s, req, docId, w).0.Recorded?
    decreases k
  {
    hide Inv, HasPostings, IsSha, Run, Attempted;
    var a := w.schedule[0];
    var (outcome, s') := Attempted(sha, s, req, docId, a);
    AttemptKeepsInv(sha, s, req, docId, a);
    AttemptFaults(sha, s, req, docId, a);
    var later := Run(sha, s', a.after);
    EveryRunVerifies(sha, s', a.after);
    if outcome.Duplicate? {
      var rest := w.(schedule := w.schedule[1..]);
      RetriesKeepInv(sha, later, req, docId, rest);
      if k == 0 {
        FreePrefix(s'.docs, Retried(sha, s, req, docId, w).1.docs, req.key, docId);
        CalmAttemptSettles(sha, s, req, docId, a);
      } else if EntryOf(later.docs, req.key, a.lookupFails).None? {
        CalmAttemptRecords(sha, later, req, docId, rest, k - 1);
      }
    }
  }

  lemma AttemptFaults(sha: Sha, s: State, req: Request, docId: string, a: Attempt)
    ensures Attempted(sha, s, req, docId, a).0.Faulty? <==> !a.fault.NoFault?
  {
  }

  lemma FreePrefix(docs: seq<LedgerDocument>, longer: seq<LedgerDocument>, key: string, docId: string)
    requires docs <= longer && IdIsFree(longer, key, docId)
    ensures IdIsFree(docs, key, docId)
  {
  }

  /** Nothing fails. */
  predicate Fair(w: Weather) {
    && !w.lastLookupFails && !w.outboxFails
    && forall j :: 0 <= j < |w.schedule| ==>
         w.schedule[j].fault.NoFault? && !w.schedule[j].readFails && !w.schedule[j].lookupFails
  }

  /** Where nothing fails, a call gives up only if other pods appended an entry during each of its attempts. */
  lemma {:induction false} GivingUpMeansContention(sha: Sha, s: State, req: Request, docId: string, w: Weather)
    requires IsSha(sha) && Inv(sha, s) && HasPostings(req) && Fair(w)
    requires IdIsFree(Retried(sha, s, req, docId, w).1.docs, req.key, docId)
    requires Retried(sha, s, req, docId, w).0.NotRecorded?
    ensures |Retried(sha, s, req, docId, w).1.docs| >= |s.docs| + |w.schedule|
    ensures forall i :: 0 <= i < |Retried(sha, s, req, docId, w).1.docs| ==>
              Retried(sha, s, req, docId, w).1.docs[i].key != req.key
    decreases |w.schedule|
  {
    hide Inv, HasPostings, IsSha;
    if w.schedule != [] {
      var a := w.schedule[0];
      var (outcome, s') := Attempted(sha, s, req, docId, a);
      AttemptKeepsInv(sha, s, req, docId, a);
      var later := Run(sha, s', a.after);
      EveryRunVerifies(sha, s, a.before);
      EveryRunVerifies(sha, s', a.after);
      var rest := w.(schedule := w.schedule[1..]);
      RetriesKeepInv(sha, later, req, docId, rest);
      FreePrefix(s'.docs, Retried(sha, s, req, docId, w).1.docs, req.key, docId);
      DuplicateMeansRace(sha, s, req, docId, a);
      hide Run, Attempted;
      GivingUpMeansContention(sha, later, req, docId, rest);
    }
  }

  /** A whole call that nothing fails gives up only after other pods appended five entries meanwhile. */
  lemma GivingUpTakesFive(sha: Sha, s: State, req: Request, newId: string, w: Weather)
    requires IsSha(sha) && Inv(sha, s) && Fair(w) && |w.schedule| == MAX_INSERT_RETRIES
    requires Served(sha, s, req, newId, w).0.NotRecorded?
    requires IdIsFree(Served(sha, s, req, newId, w).1.docs, req.key, DocId(req.txId, newId))
    ensures |Served(sha, s, req, newId, w).1.docs| >= |s.docs| + 5
  {
    hide Inv, Wellformed, HasPostings, Retried, DocId, Fair, IsSha;
    GivingUpMeansContention(sha, s, req, DocId(req.txId, newId), w);
  }

  /** RecordTransaction, with everything it meets as an input. */
  method RecordTransaction(sha: Sha, col: LedgerCollection, req: Request, newId: string, w: Weather)
    returns (resp: Response)
    requires |w.schedule| == MAX_INSERT_RETRIES
    modifies col
    ensures (resp, col.Now()) == Served(sha, old(col.Now()), req, newId, w)
  {
    hide Wellformed, HasPostings, Attempted, DocId, Find, Run;
    if !Wellformed(req) {
      return InvalidArgument;
    }
    var existing := col.FindByKey(req.key, w.firstLookupFails);
    if existing.Some? {
      return Recorded(existing.value.id);
    }
    var docId := DocId(req.txId, newId);
    var usable := BuildPostings(req);
    if !usable {
      return InvalidArgument;
    }
    var attempt := 0;
    while attempt < MAX_INSERT_RETRIES
      invariant 0 <= attempt <= MAX_INSERT_RETRIES
      invariant Retried(sha, old(col.Now()), req, docId, w)
                == Retried(sha, col.Now(), req, docId, w.(schedule := w.schedule[attempt..]))
    {
      var a := w.schedule[attempt];
      assert w.schedule[attempt..][0] == a && w.schedule[attempt..][1..] == w.schedule[attempt + 1..];
      var outcome := TryInsert(sha, col, req, docId, a);
      match outcome {
        case Inserted => return if w.outboxFails then NotRecorded else Recorded(docId);
        case Faulty => return NotRecorded;
        case Duplicate =>
          col.Interfere(sha, a.after);
          var dup := col.FindByKey(req.key, a.lookupFails);
          if dup.Some? {
            return Recorded(dup.value.id);
          }
      }
      attempt := attempt + 1;
    }
    var dup := col.FindByKey(req.key, w.lastLookupFails);
    return if dup.Some? then Recorded(dup.value.id) else NotRecorded;
  }

  /** The double-entry check before the loop. */
  method BuildPostings(req: Request) returns (usable: bool)
    ensures usable == HasPostings(req)
  {
    var postings := CreateMultiCurrencyTransferPostings(req.source, req.destination, req.amount, req.currency,
                                                        req.destAmount, req.destCurrency);
    return postings.Some?;
  }

  /** One turn of the retry loop: read the head, let others run, insert. */
  method TryInsert(sha: Sha, col: LedgerCollection, req: Request, docId: string, a: Attempt) returns (outcome: Outcome)
    modifies col
    ensures (outcome, col.Now()) == Attempted(sha, old(col.Now()), req, docId, a)
  {
    hide NextLink, NewDocument, Run, Insertable;
    col.Interfere(sha, a.before);
    var link := NextLink(col.docs, a.readFails);
    var doc := NewDocument(sha, req, docId, link.0, link.1, a.now);
    col.Interfere(sha, a.between);
    if a.fault.NotWritten? {
      return Faulty;
    }
    var inserted := col.InsertOne(doc);
    if a.fault.AckLost? {
      return Faulty;
    }
    return if inserted then Inserted else Duplicate;
  }

  lemma ContinuesRun(docs: seq<LedgerDocument>, longer: seq<LedgerDocument>, d: LedgerDocument)
    requires docs <= longer && ContinuesPrefix(docs, d)
    ensures ContinuesPrefix(longer, d)
  {
  }

  lemma OwnInsertKeepsInv(sha: Sha, s: State, doc: LedgerDocument)
    requires Inv(sha, s) && Sound(sha, doc) && ContinuesPrefix(s.docs, doc) && Insertable(s.docs, doc)
    ensures Inv(sha, State(s.docs + [doc], s.pods))
  {
    InsertableContinuesHead(sha, s.docs, doc);
    forall p | p in s.pods ensures ContinuesPrefix(s.docs + [doc], s.pods[p]) {
      ContinuesLonger(s.docs, s.pods[p], doc);
    }
  }
}
