/** The hash chain and its verifier (cmd/ledger-service/double_entry.go:225-345). */
module AuditChain {
  import opened Hashing
  import opened Encoding
  import opened Postings
  import Merkle

  datatype LedgerDocument = LedgerDocument(
    id: string, sequence: int, key: string,
    source: string, destination: string, amount: int, currency: string, destAmount: int, destCurrency: string,
    timestamp: int, postings: seq<Posting>, previousHash: string, entryHash: string)

  const NANOS_PER_MILLI: int := 1_000_000

  /** Truncate(time.Millisecond).UnixNano(). */
  function Millis(timestamp: int): int {
    timestamp / NANOS_PER_MILLI * NANOS_PER_MILLI
  }

  function EntryInput(previousHash: string, sequence: int, txId: string, key: string, timestamp: int,
                      ps: seq<Posting>): string {
    Canonical(previousHash, sequence, txId, key, Millis(timestamp), ps)
  }

  function ComputeEntryHash(sha: Sha, previousHash: string, sequence: int, txId: string, key: string,
                            timestamp: int, ps: seq<Posting>): string {
    sha(EntryInput(previousHash, sequence, txId, key, timestamp, ps))
  }

  function DocInput(doc: LedgerDocument): string {
    EntryInput(doc.previousHash, doc.sequence, doc.id, doc.key, doc.timestamp, doc.postings)
  }

  /** verifyDocIntegrity finds nothing wrong. */
  ghost predicate Intact(sha: Sha, doc: LedgerDocument, expectedSeq: int, expectedPrevHash: string) {
    && doc.sequence == expectedSeq
    && doc.previousHash == expectedPrevHash
    && doc.entryHash == sha(DocInput(doc))
    && Valid(doc.postings)
  }

  function HashBefore(docs: seq<LedgerDocument>, i: nat): string
    requires i <= |docs|
  {
    if i == 0 then GENESIS else docs[i - 1].entryHash
  }

  /** Entries 1..n, each linked to the one before, correctly hashed and balanced. */
  ghost predicate IsChain(sha: Sha, docs: seq<LedgerDocument>) {
    forall i :: 0 <= i < |docs| ==> IntactAt(sha, docs, i)
  }

  ghost predicate IntactAt(sha: Sha, docs: seq<LedgerDocument>, i: nat)
    requires i < |docs|
  {
    Intact(sha, docs[i], i + 1, HashBefore(docs, i))
  }

  datatype Status = Verified | Corrupted | TrialBalanceUnbalanced

  datatype AuditResult = AuditResult(status: Status, totalEntries: int,
                                     totalDebits: map<string, int>, totalCredits: map<string, int>,
                                     latestHash: string, lastSequence: int, tamperedEntrySeq: int)

  function AllPostings(docs: seq<LedgerDocument>): seq<Posting> {
    if docs == [] then [] else AllPostings(docs[..|docs| - 1]) + docs[|docs| - 1].postings
  }

  function LatestHash(docs: seq<LedgerDocument>): string {
    if docs == [] then "" else docs[|docs| - 1].entryHash
  }

  method VerifyDocIntegrity(sha: Sha, doc: LedgerDocument, expectedSeq: int, expectedPrevHash: string)
    returns (ok: bool)
    ensures ok <==> Intact(sha, doc, expectedSeq, expectedPrevHash)
    ensures ok ==> doc.sequence == expectedSeq
  {
    if doc.sequence != expectedSeq || doc.previousHash != expectedPrevHash {
      return false;
    }
    var computed := ComputeEntryHash(sha, doc.previousHash, doc.sequence, doc.id, doc.key, doc.timestamp, doc.postings);
    if doc.entryHash != computed {
      return false;
    }
    ok := ValidatePostings(doc.postings);
  }

  method AccumulateDocPostings(doc: LedgerDocument, debits: map<string, int>, credits: map<string, int>,
                               ghost before: seq<Posting>)
    returns (debits': map<string, int>, credits': map<string, int>)
    requires HoldsTotals(debits, before, DEBIT) && HoldsTotals(credits, before, CREDIT)
    ensures HoldsTotals(debits', before + doc.postings, DEBIT) && HoldsTotals(credits', before + doc.postings, CREDIT)
  {
    debits', credits' := debits, credits;
    assert before + doc.postings[..0] == before;
    for i := 0 to |doc.postings|
      invariant HoldsTotals(debits', before + doc.postings[..i], DEBIT)
      invariant HoldsTotals(credits', before + doc.postings[..i], CREDIT)
    {
      var p := doc.postings[i];
      assert before + doc.postings[..i + 1] == before + doc.postings[..i] + [p];
      HoldsTotalsExtend(debits', before + doc.postings[..i], p, DEBIT);
      HoldsTotalsExtend(credits', before + doc.postings[..i], p, CREDIT);
      if p.direction == DEBIT {
        debits' := Bump(debits', p.currency, p.amount);
      } else if p.direction == CREDIT {
        credits' := Bump(credits', p.currency, p.amount);
      }
    }
    assert doc.postings[..|doc.postings|] == doc.postings;
  }

  lemma {:induction false} TotalConcat(ps: seq<Posting>, qs: seq<Posting>, direction: string, c: string)
    ensures Total(ps + qs, direction, c) == Total(ps, direction, c) + Total(qs, direction, c)
  {
    if qs == [] {
      assert ps + qs == ps;
    } else {
      var front := qs[..|qs| - 1];
      assert (ps + qs)[..|ps + qs| - 1] == ps + front;
      TotalConcat(ps, front, direction, c);
    }
  }

  lemma WrapSum(a: int, b: int, a': int, b': int)
    requires Wrap(a) == Wrap(a') && Wrap(b) == Wrap(b')
    ensures Wrap(a + b) == Wrap(a' + b')
  {
    WrapAdd(a, b);
    WrapAdd(b, Wrap(a));
    WrapAdd(a', b');
    WrapAdd(b', Wrap(a'));
  }

  /** Entry-by-entry validation forces equal ledger-wide wrapped totals in every currency. */
  lemma {:induction false} TrialBalance(docs: seq<LedgerDocument>, c: string)
    requires forall i :: 0 <= i < |docs| ==> Valid(docs[i].postings)
    ensures Wrap(Total(AllPostings(docs), DEBIT, c)) == Wrap(Total(AllPostings(docs), CREDIT, c))
  {
    if docs != [] {
      var front, last := docs[..|docs| - 1], docs[|docs| - 1];
      TrialBalance(front, c);
      ValidIsBalancedModulo(last.postings, c);
      TotalConcat(AllPostings(front), last.postings, DEBIT, c);
      TotalConcat(AllPostings(front), last.postings, CREDIT, c);
      WrapSum(Total(AllPostings(front), DEBIT, c), Total(last.postings, DEBIT, c),
              Total(AllPostings(front), CREDIT, c), Total(last.postings, CREDIT, c));
    }
  }

  lemma ChainIsBalanced(sha: Sha, docs: seq<LedgerDocument>, debits: map<string, int>, credits: map<string, int>)
    requires IsChain(sha, docs)
    requires HoldsTotals(debits, AllPostings(docs), DEBIT) && HoldsTotals(credits, AllPostings(docs), CREDIT)
    ensures forall c :: c in debits ==> debits[c] == Lookup(credits, c)
  {
    forall c | c in debits ensures debits[c] == Lookup(credits, c) {
      forall i | 0 <= i < |docs| ensures Valid(docs[i].postings) {
        assert IntactAt(sha, docs, i);
      }
      TrialBalance(docs, c);
      assert Lookup(debits, c) == Wrap(Total(AllPostings(docs), DEBIT, c));
      assert Lookup(credits, c) == Wrap(Total(AllPostings(docs), CREDIT, c));
    }
  }

  method CheckTrialBalance(debits: map<string, int>, credits: map<string, int>) returns (balanced: bool)
    ensures balanced <==> forall c :: c in debits ==> debits[c] == Lookup(credits, c)
  {
    var todo := debits.Keys;
    while todo != {}
      invariant todo <= debits.Keys
      invariant forall c :: c in debits && c !in todo ==> debits[c] == Lookup(credits, c)
    {
      var curr :| curr in todo;
      if debits[curr] != Lookup(credits, curr) {
        return false;
      }
      todo := todo - {curr};
    }
    return true;
  }

  lemma NoPostingsNoTotals()
    ensures HoldsTotals(map[], [], DEBIT) && HoldsTotals(map[], [], CREDIT)
  {
  }

  /** For any documents, in the order the sorted query returns them: VERIFIED exactly for a chain, otherwise
      CORRUPTED at the first document that breaks it, and never TRIAL_BALANCE_UNBALANCED. */
  method VerifyAuditChain(sha: Sha, docs: seq<LedgerDocument>) returns (r: AuditResult)
    ensures r.status.Verified? <==> IsChain(sha, docs)
    ensures r.status.Corrupted? <==> !IsChain(sha, docs)
    ensures r.status.Corrupted? ==>
              exists i :: && 0 <= i < |docs| && IsChain(sha, docs[..i]) && !IsChain(sha, docs[..i + 1])
                          && r.tamperedEntrySeq == docs[i].sequence && r.totalEntries == i
    ensures r.status.Verified? ==>
              && r.totalEntries == r.lastSequence == |docs| && r.latestHash == LatestHash(docs)
              && HoldsTotals(r.totalDebits, AllPostings(docs), DEBIT)
              && HoldsTotals(r.totalCredits, AllPostings(docs), CREDIT)
  {
    NoPostingsNoTotals();
    r := AuditResult(Verified, 0, map[], map[], "", 0, 0);
    var expectedPrevHash := GENESIS;
    var expectedSeq := 1;
    for i := 0 to |docs|
      invariant expectedSeq == i + 1 && expectedPrevHash == HashBefore(docs, i)
      invariant IsChain(sha, docs[..i])
      invariant r.status.Verified? && r.totalEntries == r.lastSequence == i && r.latestHash == LatestHash(docs[..i])
      invariant HoldsTotals(r.totalDebits, AllPostings(docs[..i]), DEBIT)
      invariant HoldsTotals(r.totalCredits, AllPostings(docs[..i]), CREDIT)
    {
      var doc := docs[i];
      ChainExtend(sha, docs, i);
      var ok := VerifyDocIntegrity(sha, doc, expectedSeq, expectedPrevHash);
      if !ok {
        r := r.(status := Corrupted, tamperedEntrySeq := doc.sequence);
        ChainPrefix(sha, docs, i + 1);
        return;
      }
      var debits, credits := AccumulateDocPostings(doc, r.totalDebits, r.totalCredits, AllPostings(docs[..i]));
      assert docs[..i + 1][..i] == docs[..i];
      expectedPrevHash := doc.entryHash;
      expectedSeq := expectedSeq + 1;
      r := r.(totalDebits := debits, totalCredits := credits, totalEntries := r.totalEntries + 1,
      latestHash := doc.entryHash, lastSequence := doc.sequence);
    }
    assert docs[..|docs|] == docs;
    ChainIsBalanced(sha, docs, r.totalDebits, r.totalCredits);
    var balanced := CheckTrialBalance(r.totalDebits, r.totalCredits);
    if !balanced {
      r := r.(status := TrialBalanceUnbalanced);
    }
  }

  lemma ChainPrefix(sha: Sha, docs: seq<LedgerDocument>, i: nat)
    requires i <= |docs|
    ensures IsChain(sha, docs) ==> IsChain(sha, docs[..i])
  {
    if IsChain(sha, docs) {
      forall j | 0 <= j < i ensures IntactAt(sha, docs[..i], j) {
        assert IntactAt(sha, docs, j);
      }
    }
  }

  lemma ChainExtend(sha: Sha, docs: seq<LedgerDocument>, i: nat)
    requires i < |docs| && IsChain(sha, docs[..i])
    ensures IsChain(sha, docs[..i + 1]) <==> IntactAt(sha, docs, i)
  {
    var longer := docs[..i + 1];
    assert longer[i] == docs[i] && HashBefore(longer, i) == HashBefore(docs, i);
    assert IntactAt(sha, longer, i) <==> IntactAt(sha, docs, i);
    if IntactAt(sha, docs, i) {
      forall j | 0 <= j <= i ensures IntactAt(sha, longer, j) {
        if j < i {
          assert IntactAt(sha, docs[..i], j);
        }
      }
    }
  }

  lemma ChainLinks(sha: Sha, docs: seq<LedgerDocument>, i: nat)
    requires IsChain(sha, docs) && i < |docs|
    ensures docs[i].sequence == i + 1 && docs[i].previousHash == HashBefore(docs, i)
  {
    assert IntactAt(sha, docs, i);
  }

  // ---- a head hash fixes the ledger ----

  /** ObjectID.Hex() never contains the separator. */
  ghost predicate HexIds(docs: seq<LedgerDocument>) {
    forall i :: 0 <= i < |docs| ==> '|' !in docs[i].id
  }

  /** What an entry hash seals. */
  datatype Sealed = Sealed(sequence: int, id: string, key: string, millis: int, postings: seq<Posting>)

  function Seal(doc: LedgerDocument): Sealed {
    Sealed(doc.sequence, doc.id, doc.key, Millis(doc.timestamp), doc.postings)
  }

  function Seals(docs: seq<LedgerDocument>): seq<Sealed> {
    seq(|docs|, i requires 0 <= i < |docs| => Seal(docs[i]))
  }

  ghost function Inputs(docs: seq<LedgerDocument>): set<string> {
    set i | 0 <= i < |docs| :: DocInput(docs[i])
  }

  lemma ChainLinksAreDigests(sha: Sha, docs: seq<LedgerDocument>, i: nat)
    requires IsSha(sha) && IsChain(sha, docs) && i < |docs|
    ensures IsDigest(docs[i].previousHash) && '|' !in docs[i].previousHash
  {
    assert IntactAt(sha, docs, i);
    if i > 0 {
      assert IntactAt(sha, docs, i - 1);
      ShaIsDigest(sha, DocInput(docs[i - 1]));
    }
  }

  /** Two verifying ledgers that report the same latest hash hold the same ids, keys, millisecond timestamps
      and postings in the same order, or two of the texts hashed in them collide. */
  lemma SameHeadSameLedger(sha: Sha, a: seq<LedgerDocument>, b: seq<LedgerDocument>)
    requires IsSha(sha) && IsChain(sha, a) && IsChain(sha, b) && HexIds(a) && HexIds(b)
    requires LatestHash(a) == LatestHash(b)
    ensures Seals(a) == Seals(b) || Collision(sha, Inputs(a), Inputs(b))
  {
    ChainIsLinked(sha, a);
    ChainIsLinked(sha, b);
    SameHeadByInduction(sha, a, b);
  }

  /** What the argument needs of a chain: links, hashes, and texts that can be cut at their first bars. */
  ghost predicate Linked(docs: seq<LedgerDocument>) {
    forall i :: 0 <= i < |docs| ==> LinkedAt(docs, i)
  }

  ghost predicate LinkedAt(docs: seq<LedgerDocument>, i: nat)
    requires i < |docs|
  {
    && docs[i].sequence == i + 1 && docs[i].previousHash == HashBefore(docs, i)
    && '|' !in docs[i].previousHash && '|' !in docs[i].id && docs[i].entryHash != ""
  }

  ghost predicate Hashed(sha: Sha, docs: seq<LedgerDocument>) {
    forall i :: 0 <= i < |docs| ==> docs[i].entryHash == sha(DocInput(docs[i]))
  }

  lemma ChainIsLinked(sha: Sha, docs: seq<LedgerDocument>)
    requires IsSha(sha) && IsChain(sha, docs) && HexIds(docs)
    ensures Linked(docs) && Hashed(sha, docs)
  {
    forall i | 0 <= i < |docs|
      ensures LinkedAt(docs, i) && docs[i].entryHash == sha(DocInput(docs[i]))
    {
      ChainLinksAreDigests(sha, docs, i);
      assert IntactAt(sha, docs, i);
      ShaIsDigest(sha, DocInput(docs[i]));
    }
  }

  lemma {:induction false} SameHeadByInduction(sha: Sha, a: seq<LedgerDocument>, b: seq<LedgerDocument>)
    requires Linked(a) && Hashed(sha, a) && Linked(b) && Hashed(sha, b)
    requires LatestHash(a) == LatestHash(b)
    ensures Seals(a) == Seals(b) || Collision(sha, Inputs(a), Inputs(b))
    decreases |a|
  {
    assert a != [] ==> LinkedAt(a, |a| - 1);
    assert b != [] ==> LinkedAt(b, |b| - 1);
    if a != [] {
      var n, m := |a| - 1, |b| - 1;
      if DocInput(a[n]) == DocInput(b[m]) {
        EqualInputsEqualSeals(a[n], b[m]);
        LinkedPrefix(sha, a);
        LinkedPrefix(sha, b);
        SameHeadByInduction(sha, a[..n], b[..n]);
        InputsPrefix(a, n);
        InputsPrefix(b, n);
        CollisionGrows(sha, Inputs(a[..n]), Inputs(b[..n]), Inputs(a), Inputs(b));
        if Seals(a[..n]) == Seals(b[..n]) {
          SealsExtend(a, b);
        }
      } else {
        assert DocInput(a[n]) in Inputs(a) && DocInput(b[m]) in Inputs(b);
      }
    }
  }

  lemma LinkedPrefix(sha: Sha, a: seq<LedgerDocument>)
    requires a != [] && Linked(a) && Hashed(sha, a)
    ensures var front := a[..|a| - 1];
            && Linked(front) && Hashed(sha, front)
            && LatestHash(front) == if front == [] then "" else a[|a| - 1].previousHash
  {
    var front := a[..|a| - 1];
    assert LinkedAt(a, |a| - 1);
    forall i | 0 <= i < |front| ensures LinkedAt(front, i) {
      assert LinkedAt(a, i);
    }
  }

  lemma EqualInputsEqualSeals(x: LedgerDocument, y: LedgerDocument)
    requires '|' !in x.previousHash && '|' !in y.previousHash && '|' !in x.id && '|' !in y.id
    requires DocInput(x) == DocInput(y)
    ensures x.previousHash == y.previousHash && Seal(x) == Seal(y)
  {
    CanonicalInjective(x.previousHash, x.sequence, x.id, x.key, Millis(x.timestamp), x.postings,
                       y.previousHash, y.sequence, y.id, y.key, Millis(y.timestamp), y.postings);
  }

  lemma SealsExtend(a: seq<LedgerDocument>, b: seq<LedgerDocument>)
    requires a != [] && b != [] && |a| == |b| && Seal(a[|a| - 1]) == Seal(b[|b| - 1])
    requires Seals(a[..|a| - 1]) == Seals(b[..|b| - 1])
    ensures Seals(a) == Seals(b)
  {
    forall i | 0 <= i < |a| ensures Seals(a)[i] == Seals(b)[i] {
      if i < |a| - 1 {
        assert Seals(a[..|a| - 1])[i] == Seals(b[..|b| - 1])[i];
      }
    }
  }

  lemma InputsPrefix(a: seq<LedgerDocument>, n: nat)
    requires n <= |a|
    ensures Inputs(a[..n]) <= Inputs(a)
  {
  }

  /** The texts hashed in a chain are entry inputs in the sense of the audit tree. */
  lemma ChainInputsAreEntryInputs(sha: Sha, docs: seq<LedgerDocument>, i: nat)
    requires IsSha(sha) && IsChain(sha, docs) && i < |docs|
    ensures Merkle.IsEntryInput(DocInput(docs[i]))
  {
    ChainLinksAreDigests(sha, docs, i);
    var d := docs[i];
    CanonicalShape(d.previousHash, d.sequence, d.id, d.key, Millis(d.timestamp), d.postings);
    assert DocInput(docs[i])[0] == docs[i].previousHash[0];
  }
}
