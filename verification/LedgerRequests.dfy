/** What a caller of RecordTransaction can rely on, in terms of the request alone
    (cmd/ledger-service/main.go:167-335, double_entry.go:99-241, pkg/db/currency.go:20-150). */
module LedgerRequests {
  import opened Hashing
  import opened Encoding
  import opened Currency
  import opened AuditChain
  import opened LedgerPods

  /** The catalogue of currencies. */
  predicate Listed(code: string) {
    code in ["USD", "EUR", "GBP", "CAD", "AUD", "JPY", "KRW", "CHF", "SGD", "INR", "BHD", "KWD", "TND"]
  }

  lemma ListedAreTheCodes(code: string)
    ensures Listed(code) <==> IsCode(code)
  {
  }

  lemma AmountIsUsable(amount: int, currency: string)
    ensures ValidateAmount(amount, currency) <==> amount > 0 && Listed(Normalize(currency))
  {
    ListedAreTheCodes(Normalize(currency));
    hide ScaleOf, Normalize, Listed;
  }

  lemma NoCurrency()
    ensures !Listed(Normalize(""))
  {
    assert Normalize("") == "";
  }

  /** Names another currency than the source's. */
  predicate Crosses(req: Request) {
    req.destCurrency != "" && req.destCurrency != req.currency
  }

  lemma UsableRequest(req: Request)
    ensures Wellformed(req) <==>
              && req.key != "" && req.amount > 0 && Listed(Normalize(req.currency))
              && (Crosses(req) ==> req.destAmount > 0 && Listed(Normalize(req.destCurrency)))
    ensures Wellformed(req) ==> (HasPostings(req) <==> req.source != "" && req.destination != "")
  {
    AmountIsUsable(req.amount, req.currency);
    AmountIsUsable(req.destAmount, req.destCurrency);
    NoCurrency();
    hide Listed, Normalize, ValidateAmount;
  }

  /** The requests answered with InvalidArgument are exactly these: no key, an amount that is not positive or in no
      listed currency, the same of the other side of a cross-currency request, and a missing account unless the first
      lookup finds the key. */
  lemma RefusedExactly(sha: Sha, s: State, req: Request, newId: string, w: Weather)
    ensures Served(sha, s, req, newId, w).0.InvalidArgument? <==>
              || req.key == ""
              || req.amount <= 0
              || !Listed(Normalize(req.currency))
              || (Crosses(req) && (req.destAmount <= 0 || !Listed(Normalize(req.destCurrency))))
              || ((req.source == "" || req.destination == "")
                  && (w.firstLookupFails || forall i :: 0 <= i < |s.docs| ==> s.docs[i].key != req.key))
  {
    hide Listed, Normalize, Wellformed, HasPostings, DocId, Retried;
    UsableRequest(req);
    if !w.firstLookupFails && Find(s.docs, req.key).Some? {
      var d := Find(s.docs, req.key).value;
      var i :| 0 <= i < |s.docs| && s.docs[i] == d;
    }
    RetriesDoNotRefuse(sha, s, req, DocId(req.txId, newId), w);
  }

  lemma {:induction false} RetriesDoNotRefuse(sha: Sha, s: State, req: Request, docId: string, w: Weather)
    ensures !Retried(sha, s, req, docId, w).0.InvalidArgument?
    decreases |w.schedule|
  {
    hide Attempted, Run;
    if w.schedule != [] {
      var later := Run(sha, Attempted(sha, s, req, docId, w.schedule[0]).1, w.schedule[0].after);
      RetriesDoNotRefuse(sha, later, req, docId, w.(schedule := w.schedule[1..]));
    }
  }

  // ---- what is recorded ----

  /** The journal of a request, leg by leg. */
  ghost predicate IsJournal(ps: seq<Posting>, req: Request) {
    if Crosses(req) then
      ps == [Posting(req.source, "CUSTOMER_LIABILITY", "DEBIT", req.amount, req.currency),
             Posting("FX_LIQUIDITY_POOL_" + req.currency, "SETTLEMENT_ASSET", "CREDIT", req.amount, req.currency),
             Posting("FX_LIQUIDITY_POOL_" + req.destCurrency, "SETTLEMENT_ASSET", "DEBIT",
                     req.destAmount, req.destCurrency),
             Posting(req.destination, "CUSTOMER_LIABILITY", "CREDIT", req.destAmount, req.destCurrency)]
    else
      && |ps| == 2
      && ps[0] == Posting(req.source, ps[0].accountType, "DEBIT", req.amount, req.currency)
      && ps[1] == Posting(req.destination, ps[1].accountType, "CREDIT", req.amount, req.currency)
      && (ps[0].accountType == "SETTLEMENT_ASSET" <==> IsInternal(req.source))
      && (ps[1].accountType == "SETTLEMENT_ASSET" <==> IsInternal(req.destination))
  }

  /** Accounts of the platform, by their names. */
  predicate IsInternal(account: string) {
    "EXTERNAL_CLEARING_" <= account || "CLEARING_" <= account || "FX_LIQUIDITY_POOL_" <= account
  }

  /** The text under an entry's hash: six fields between bars. */
  function SealedText(previous: string, sequence: int, id: string, key: string, time: int, ps: seq<Posting>): string {
    previous + "|" + Dec(sequence) + "|" + id + "|" + key + "|" + Dec(time) + "|" + Json(ps)
  }

  /** An entry at the head that says what the request says, and whose hash seals it in the documented order. */
  ghost predicate Records(sha: Sha, docs: seq<LedgerDocument>, d: LedgerDocument, req: Request, now: int) {
    && d.key == req.key && d.source == req.source && d.destination == req.destination
    && d.amount == req.amount && d.currency == req.currency
    && d.destAmount == req.destAmount && d.destCurrency == req.destCurrency
    && d.sequence == |docs| + 1
    && d.previousHash == (if docs == [] then GENESIS else docs[|docs| - 1].entryHash)
    && d.timestamp <= now < d.timestamp + 1_000_000 && d.timestamp % 1_000_000 == 0
    && IsJournal(d.postings, req)
    && d.entryHash == sha(SealedText(d.previousHash, d.sequence, d.id, d.key, d.timestamp, d.postings))
  }

  lemma EntryText(previous: string, sequence: int, txId: string, key: string, ms: int, ps: seq<Posting>)
    ensures Canonical(previous, sequence, txId, key, ms, ps) == SealedText(previous, sequence, txId, key, ms, ps)
  {
    CanonicalShape(previous, sequence, txId, key, ms, ps);
    hide Canonical, Dec, Json;
    var bar := "|";
    Associate(previous + bar + Dec(sequence) + bar + txId, bar, key, bar + (Dec(ms) + (bar + Json(ps))));
    Associate(previous + bar + Dec(sequence) + bar + txId + bar + key, bar, Dec(ms), bar + Json(ps));
    assert previous + (bar + (Dec(sequence) + (bar + (txId + (bar + Tail(key, ms, ps))))))
        == previous + bar + Dec(sequence) + bar + txId + (bar + Tail(key, ms, ps));
    assert previous + bar + Dec(sequence) + bar + txId + bar + key + bar + Dec(ms) + (bar + Json(ps))
        == previous + bar + Dec(sequence) + bar + txId + bar + key + bar + Dec(ms) + bar + Json(ps);
  }

  lemma Associate(a: string, b: string, c: string, d: string)
    ensures a + (b + (c + d)) == a + b + c + d
  {
  }

  lemma LegsAreTheJournal(req: Request)
    requires Wellformed(req)
    ensures IsJournal(Legs(req), req)
  {
    UsableRequest(req);
    hide Normalize, Listed, Wellformed;
  }

  lemma NewDocumentRecords(sha: Sha, docs: seq<LedgerDocument>, req: Request, docId: string, now: int)
    requires Wellformed(req) && HasPostings(req)
    ensures Records(sha, docs, NewDocument(sha, req, docId, |docs| + 1, HashBefore(docs, |docs|), now), req, now)
  {
    LegsAreTheJournal(req);
    hide Canonical, SealedText, Wellformed, HasPostings, IsJournal, Legs, Millis;
    var d := NewDocument(sha, req, docId, |docs| + 1, HashBefore(docs, |docs|), now);
    EntryText(d.previousHash, d.sequence, d.id, d.key, d.timestamp, d.postings);
    WholeMillis(now);
  }

  lemma WholeMillis(now: int)
    ensures Millis(now) <= now < Millis(now) + 1_000_000 && Millis(now) % 1_000_000 == 0
            && Millis(Millis(now)) == Millis(now)
  {
  }

  /** A usable request with a new key is recorded by a calm first attempt, cross-currency ones with all four legs; its
      answer is the id of the entry, which is the request's transaction id when that is an object id. */
  lemma NewRequestIsRecorded(sha: Sha, s: State, req: Request, newId: string, w: Weather)
    requires IsSha(sha) && Inv(sha, s) && w.schedule != [] && Calm(w.schedule[0]) && !w.outboxFails
    requires req.key != "" && req.source != "" && req.destination != ""
    requires req.amount > 0 && Listed(Normalize(req.currency))
    requires Crosses(req) ==> req.destAmount > 0 && Listed(Normalize(req.destCurrency))
    requires var docs := Run(sha, s, w.schedule[0].before).docs;
             forall i :: 0 <= i < |docs| ==> docs[i].key != req.key && docs[i].id != DocId(req.txId, newId)
    ensures var docs, (resp, s') := Run(sha, s, w.schedule[0].before).docs, Served(sha, s, req, newId, w);
            && resp.Recorded? && |s'.docs| == |docs| + 1 && s'.docs[..|docs|] == docs
            && s'.docs[|docs|].id == resp.transactionId
            && Records(sha, docs, s'.docs[|docs|], req, w.schedule[0].now)
    ensures !IsObjectId(req.txId) ==> DocId(req.txId, newId) == newId
  {
    UsableRequest(req);
    hide Records, Wellformed, HasPostings, Normalize, Listed, Inv, Attempted, Run, IsSha, DocId, NewDocument;
    var a, docId := w.schedule[0], DocId(req.txId, newId);
    var docs := Run(sha, s, a.before).docs;
    EveryRunVerifies(sha, s, a.before);
    CalmAttemptInserts(sha, s, req, docId, a);
    NewDocumentRecords(sha, docs, req, docId, a.now);
    assert forall i :: 0 <= i < |s.docs| ==> s.docs[i] == docs[i];
    FirstInsertAnswers(sha, s, req, newId, w);
    IdOfNewDocument(sha, req, newId, |docs| + 1, HashBefore(docs, |docs|), a.now);
  }

  lemma IdOfNewDocument(sha: Sha, req: Request, newId: string, sequence: int, previousHash: string, now: int)
    ensures NewDocument(sha, req, DocId(req.txId, newId), sequence, previousHash, now).id == DocId(req.txId, newId)
    ensures !IsObjectId(req.txId) ==> DocId(req.txId, newId) == newId
  {
  }

  lemma FirstInsertAnswers(sha: Sha, s: State, req: Request, newId: string, w: Weather)
    requires w.schedule != [] && !w.outboxFails && Wellformed(req) && HasPostings(req)
    requires forall i :: 0 <= i < |s.docs| ==> s.docs[i].key != req.key
    requires Attempted(sha, s, req, DocId(req.txId, newId), w.schedule[0]).0.Inserted?
    ensures Served(sha, s, req, newId, w)
            == (Recorded(DocId(req.txId, newId)), Attempted(sha, s, req, DocId(req.txId, newId), w.schedule[0]).1)
  {
    hide Attempted, Wellformed, HasPostings, DocId;
    assert forall d :: d in s.docs ==> d.key != req.key;
  }
}
