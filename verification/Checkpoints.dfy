/** Merkle checkpoints over ranges of the ledger (cmd/ledger-service/merkle.go). */
module Checkpoints {
  import opened Hashing
  import opened Encoding
  import opened AuditChain
  import opened Merkle

  datatype Checkpoint = Checkpoint(id: string, startSequence: int, endSequence: int, merkleRoot: string,
                                   entryCount: int, createdAt: int, leafHashes: seq<string>)

  function CheckpointId(unixSeconds: int, start: int, end: int): string {
    "mcp_" + (Dec(unixSeconds) + ("_" + (Dec(start) + ("_" + Dec(end)))))
  }

  lemma CheckpointIdFixesRange(t: int, s: int, e: int, t': int, s': int, e': int)
    requires CheckpointId(t, s, e) == CheckpointId(t', s', e')
    ensures t == t' && s == s' && e == e'
  {
    Cancel("mcp_", Dec(t) + ("_" + (Dec(s) + ("_" + Dec(e)))), Dec(t') + ("_" + (Dec(s') + ("_" + Dec(e')))));
    CutNumeral(t, "_" + (Dec(s) + ("_" + Dec(e))), t', "_" + (Dec(s') + ("_" + Dec(e'))), '_');
    Cancel("_", Dec(s) + ("_" + Dec(e)), Dec(s') + ("_" + Dec(e')));
    CutNumeral(s, "_" + Dec(e), s', "_" + Dec(e'), '_');
    Cancel("_", Dec(e), Dec(e'));
    DecInjective(t, t');
    DecInjective(e, e');
  }

  /** FindOne sorted by end_sequence descending, optionally only among checkpoints holding a leaf. */
  function Latest(cps: seq<Checkpoint>, leaf: Option<string>): (r: Option<Checkpoint>)
    ensures r.Some? ==> r.value in cps && (leaf.Some? ==> leaf.value in r.value.leafHashes)
    ensures r.None? ==> forall i :: 0 <= i < |cps| ==> leaf.Some? && leaf.value !in cps[i].leafHashes
  {
    if cps == [] then None
    else
      var last, rest := cps[|cps| - 1], Latest(cps[..|cps| - 1], leaf);
      if (leaf.None? || leaf.value in last.leafHashes) && (rest.None? || rest.value.endSequence <= last.endSequence)
      then Some(last) else rest
  }

  /** The cursor {sequence_number > lastSeq}, ascending, at most limit documents. */
  function Later(docs: seq<LedgerDocument>, lastSeq: int): seq<LedgerDocument> {
    if docs == [] then []
    else (if docs[0].sequence > lastSeq then [docs[0]] else []) + Later(docs[1..], lastSeq)
  }

  function Batch(docs: seq<LedgerDocument>, lastSeq: int, limit: int): seq<LedgerDocument>
    requires limit > 0
  {
    var later := Later(docs, lastSeq);
    if |later| > limit then later[..limit] else later
  }

  function LeafHash(doc: LedgerDocument): string {
    if doc.entryHash == "" then doc.key else doc.entryHash
  }

  function LeafHashes(docs: seq<LedgerDocument>): seq<string> {
    seq(|docs|, i requires 0 <= i < |docs| => LeafHash(docs[i]))
  }

  /** The checkpoint over a non-empty batch. */
  function Over(sha: Sha, batch: seq<LedgerDocument>, now: int): Checkpoint
    requires batch != []
  {
    var start, end := batch[0].sequence, batch[|batch| - 1].sequence;
    Checkpoint(CheckpointId(now, start, end), start, end, Mth(sha, CleanAll(LeafHashes(batch))), |batch|, now,
               LeafHashes(batch))
  }

  datatype Outcome = NothingNew | Created(checkpoint: Checkpoint) | DuplicateId

  function EffectiveLimit(batchLimit: int): int {
    if batchLimit <= 0 then 1000 else batchLimit
  }

  function LastSequence(cps: seq<Checkpoint>, readFails: bool): int {
    var latest := Latest(cps, None);
    if readFails || latest.None? then 0 else latest.value.endSequence
  }

  ghost predicate IdTaken(cps: seq<Checkpoint>, id: string) {
    exists i :: 0 <= i < |cps| && cps[i].id == id
  }

  /** The outcome of a GenerateCheckpoint call. */
  ghost function Generated(sha: Sha, cps: seq<Checkpoint>, docs: seq<LedgerDocument>, batchLimit: int, now: int,
                           readFails: bool): Outcome {
    var batch := Batch(docs, LastSequence(cps, readFails), EffectiveLimit(batchLimit));
    if batch == [] then NothingNew
    else if IdTaken(cps, Over(sha, batch, now).id) then DuplicateId
    else Created(Over(sha, batch, now))
  }

  function Stored(cps: seq<Checkpoint>, outcome: Outcome): seq<Checkpoint> {
    if outcome.Created? then cps + [outcome.checkpoint] else cps
  }

  class CheckpointStore {
    var checkpoints: seq<Checkpoint>

    constructor ()
      ensures checkpoints == []
    {
      checkpoints := [];
    }

    /** GenerateCheckpoint over the present entries; the sequence numbers it meets are positive. */
    method GenerateCheckpoint(sha: Sha, docs: seq<LedgerDocument>, batchLimit: int, now: int, readFails: bool)
      returns (r: Outcome)
      requires forall i :: 0 <= i < |docs| ==> docs[i].sequence > 0
      modifies this
      ensures r == Generated(sha, old(checkpoints), docs, batchLimit, now, readFails)
      ensures checkpoints == Stored(old(checkpoints), r)
    {
      hide CheckpointId, LastSequence, Mth;
      var limit := EffectiveLimit(batchLimit);
      var lastSeq := LastSequence(checkpoints, readFails);
      var cursor := Batch(docs, lastSeq, limit);
      LaterIsPositive(docs, lastSeq);
      var leafHashes, startSeq, endSeq := ReadCursor(cursor);
      if |leafHashes| == 0 {
        return NothingNew;
      }
      var tree := NewTree(sha, leafHashes);
      var cp := Checkpoint(CheckpointId(now, startSeq, endSeq), startSeq, endSeq, tree.value.root.hash, |leafHashes|,
                           now, leafHashes);
      var taken := exists i :: 0 <= i < |checkpoints| && checkpoints[i].id == cp.id;
      if taken {
        return DuplicateId;
      }
      checkpoints := checkpoints + [cp];
      r := Created(cp);
    }
  }

  /** The cursor loop. */
  method ReadCursor(cursor: seq<LedgerDocument>) returns (leafHashes: seq<string>, startSeq: int, endSeq: int)
    requires forall i :: 0 <= i < |cursor| ==> cursor[i].sequence > 0
    ensures leafHashes == LeafHashes(cursor)
    ensures cursor != [] ==> startSeq == cursor[0].sequence && endSeq == cursor[|cursor| - 1].sequence
  {
    leafHashes, startSeq, endSeq := [], 0, 0;
    for i := 0 to |cursor|
      invariant leafHashes == LeafHashes(cursor[..i])
      invariant startSeq == if i == 0 then 0 else cursor[0].sequence
      invariant endSeq == if i == 0 then 0 else cursor[i - 1].sequence
    {
      var hash := cursor[i].entryHash;
      if hash == "" {
        hash := cursor[i].key;
      }
      leafHashes := leafHashes + [hash];
      if startSeq == 0 {
        startSeq := cursor[i].sequence;
      }
      endSeq := cursor[i].sequence;
    }
    assert cursor[..|cursor|] == cursor;
  }

  lemma {:induction false} LaterIsPositive(docs: seq<LedgerDocument>, lastSeq: int)
    requires forall i :: 0 <= i < |docs| ==> docs[i].sequence > 0
    ensures forall i :: 0 <= i < |Later(docs, lastSeq)| ==> Later(docs, lastSeq)[i].sequence > 0
  {
    if docs != [] {
      LaterIsPositive(docs[1..], lastSeq);
    }
  }

  // ---- tiling ----

  ghost predicate Numbered(docs: seq<LedgerDocument>) {
    forall i :: 0 <= i < |docs| ==> docs[i].sequence == i + 1 && docs[i].entryHash != ""
  }

  /** cp seals exactly the entries start..end of the ledger. */
  ghost predicate Covers(sha: Sha, docs: seq<LedgerDocument>, cp: Checkpoint) {
    && 1 <= cp.startSequence <= cp.endSequence <= |docs|
    && cp.leafHashes == LeafHashes(docs[cp.startSequence - 1..cp.endSequence])
    && cp.merkleRoot == Mth(sha, CleanAll(cp.leafHashes))
    && cp.entryCount == |cp.leafHashes|
    && cp.id == CheckpointId(cp.createdAt, cp.startSequence, cp.endSequence)
  }

  function EndBefore(cps: seq<Checkpoint>, i: nat): int
    requires i <= |cps|
  {
    if i == 0 then 0 else cps[i - 1].endSequence
  }

  ghost predicate TileAt(sha: Sha, docs: seq<LedgerDocument>, cps: seq<Checkpoint>, i: nat)
    requires i < |cps|
  {
    Covers(sha, docs, cps[i]) && cps[i].startSequence == EndBefore(cps, i) + 1
  }

  /** The checkpoints, in order of creation, tile 1..last end without gap or overlap. */
  ghost predicate Tiles(sha: Sha, docs: seq<LedgerDocument>, cps: seq<Checkpoint>) {
    forall i :: 0 <= i < |cps| ==> TileAt(sha, docs, cps, i)
  }

  lemma {:induction false} LaterOfNumbered(docs: seq<LedgerDocument>, k: nat, offset: nat)
    requires k <= offset + |docs| && forall i :: 0 <= i < |docs| ==> docs[i].sequence == offset + i + 1
    ensures Later(docs, k) == if k <= offset then docs else docs[k - offset..]
  {
    if docs != [] {
      LaterOfNumbered(docs[1..], if k <= offset + 1 then offset + 1 else k, offset + 1);
      if k <= offset {
        LaterAll(docs[1..], k);
        assert docs == [docs[0]] + docs[1..];
      } else {
        assert docs[k - offset..] == docs[1..][k - offset - 1..];
      }
    }
  }

  lemma {:induction false} LaterAll(docs: seq<LedgerDocument>, k: int)
    requires forall i :: 0 <= i < |docs| ==> docs[i].sequence > k
    ensures Later(docs, k) == docs
  {
    if docs != [] {
      LaterAll(docs[1..], k);
    }
  }

  lemma {:induction false} LatestOfTiles(sha: Sha, docs: seq<LedgerDocument>, cps: seq<Checkpoint>)
    requires Tiles(sha, docs, cps)
    ensures LastSequence(cps, false) == EndBefore(cps, |cps|)
    ensures cps != [] ==> Latest(cps, None) == Some(cps[|cps| - 1])
  {
    if cps != [] {
      var front := cps[..|cps| - 1];
      assert TileAt(sha, docs, cps, |cps| - 1);
      forall i | 0 <= i < |front| ensures TileAt(sha, docs, front, i) {
        assert TileAt(sha, docs, cps, i);
      }
      LatestOfTiles(sha, docs, front);
    }
  }

  /** A later ledger extends an earlier one, and the tiles stay. */
  lemma TilesOfLonger(sha: Sha, docs: seq<LedgerDocument>, longer: seq<LedgerDocument>, cps: seq<Checkpoint>)
    requires docs <= longer && Tiles(sha, docs, cps)
    ensures Tiles(sha, longer, cps)
  {
    forall i | 0 <= i < |cps| ensures TileAt(sha, longer, cps, i) {
      assert TileAt(sha, docs, cps, i);
      var s, e := cps[i].startSequence, cps[i].endSequence;
      assert longer[s - 1..e] == docs[s - 1..e];
    }
  }

  lemma {:induction false} TilesAreOrdered(sha: Sha, docs: seq<LedgerDocument>, cps: seq<Checkpoint>, i: nat, j: nat)
    requires Tiles(sha, docs, cps) && i <= j <= |cps|
    ensures EndBefore(cps, i) <= EndBefore(cps, j) <= |docs|
    decreases j - i
  {
    if j > 0 {
      assert TileAt(sha, docs, cps, j - 1);
    }
    if i < j {
      TilesAreOrdered(sha, docs, cps, i, j - 1);
    }
  }

  /** The batch a call reads, over a numbered ledger. */
  lemma NextBatch(sha: Sha, docs: seq<LedgerDocument>, cps: seq<Checkpoint>, batchLimit: int)
    requires Numbered(docs) && Tiles(sha, docs, cps)
    ensures var last := EndBefore(cps, |cps|);
            var end := if |docs| - last > EffectiveLimit(batchLimit) then last + EffectiveLimit(batchLimit) else |docs|;
            0 <= last <= end <= |docs|
            && Batch(docs, LastSequence(cps, false), EffectiveLimit(batchLimit)) == docs[last..end]
  {
    TilesAreOrdered(sha, docs, cps, 0, |cps|);
    LatestOfTiles(sha, docs, cps);
    LaterOfNumbered(docs, EndBefore(cps, |cps|), 0);
  }

  lemma OverCovers(sha: Sha, docs: seq<LedgerDocument>, last: nat, end: nat, now: int)
    requires Numbered(docs) && last < end <= |docs|
    ensures var cp := Over(sha, docs[last..end], now);
            Covers(sha, docs, cp) && cp.startSequence == last + 1 && cp.endSequence == end && cp.createdAt == now
  {
    var batch := docs[last..end];
    assert batch[0] == docs[last] && batch[|batch| - 1] == docs[end - 1];
  }

  lemma TilesExtend(sha: Sha, docs: seq<LedgerDocument>, cps: seq<Checkpoint>, cp: Checkpoint)
    requires Tiles(sha, docs, cps)
    ensures Tiles(sha, docs, cps + [cp]) <==> Covers(sha, docs, cp) && cp.startSequence == EndBefore(cps, |cps|) + 1
  {
    var more := cps + [cp];
    assert EndBefore(more, |cps|) == EndBefore(cps, |cps|);
    assert TileAt(sha, docs, more, |cps|) <==> Covers(sha, docs, cp) && cp.startSequence == EndBefore(cps, |cps|) + 1;
    if TileAt(sha, docs, more, |cps|) {
      forall i | 0 <= i < |more| ensures TileAt(sha, docs, more, i) {
        if i < |cps| {
          assert TileAt(sha, docs, cps, i);
          assert EndBefore(more, i) == EndBefore(cps, i);
        }
      }
    }
  }

  lemma NewTileFits(sha: Sha, docs: seq<LedgerDocument>, cps: seq<Checkpoint>, end: nat, now: int)
    requires Numbered(docs) && Tiles(sha, docs, cps)
    requires 0 <= EndBefore(cps, |cps|) < end <= |docs|
    ensures var cp := Over(sha, docs[EndBefore(cps, |cps|)..end], now);
            && Tiles(sha, docs, cps + [cp]) && cp.endSequence == end
            && forall i :: 0 <= i < |cps| ==> cps[i].id != cp.id
  {
    var last := EndBefore(cps, |cps|);
    var cp := Over(sha, docs[last..end], now);
    OverCovers(sha, docs, last, end, now);
    TilesExtend(sha, docs, cps, cp);
    forall i | 0 <= i < |cps| ensures cps[i].id != cp.id {
      FreshId(sha, docs, cps, cp, i);
    }
  }

  lemma FreshId(sha: Sha, docs: seq<LedgerDocument>, cps: seq<Checkpoint>, cp: Checkpoint, i: nat)
    requires Tiles(sha, docs, cps) && i < |cps| && Covers(sha, docs, cp) && EndBefore(cps, |cps|) < cp.endSequence
    ensures cps[i].id != cp.id
  {
    TilesAreOrdered(sha, docs, cps, i + 1, |cps|);
    assert TileAt(sha, docs, cps, i);
    if cps[i].id == cp.id {
      CheckpointIdFixesRange(cps[i].createdAt, cps[i].startSequence, cps[i].endSequence,
                             cp.createdAt, cp.startSequence, cp.endSequence);
    }
  }

  /** One call over a numbered ledger: it fails on no index, tiles further whenever there are new entries, and
      reaches the batch limit or the end of the ledger. */
  lemma CallTilesFurther(sha: Sha, cps: seq<Checkpoint>, docs: seq<LedgerDocument>, batchLimit: int, now: int)
    requires Numbered(docs) && Tiles(sha, docs, cps)
    ensures var r := Generated(sha, cps, docs, batchLimit, now, false);
            var cps' := Stored(cps, r);
            var last, limit := EndBefore(cps, |cps|), if batchLimit <= 0 then 1000 else batchLimit;
            && Tiles(sha, docs, cps')
            && EndBefore(cps', |cps'|) == (if |docs| - last > limit then last + limit else |docs|)
            && (if last == |docs| then r.NothingNew? else r.Created?)
  {
    var last := EndBefore(cps, |cps|);
    NextBatch(sha, docs, cps, batchLimit);
    var end := if |docs| - last > EffectiveLimit(batchLimit) then last + EffectiveLimit(batchLimit) else |docs|;
    if last < end {
      NewTileFits(sha, docs, cps, end, now);
    }
  }

  // ---- failing reads of the last checkpoint ----

  /** The last entry of a batch that starts at entry 1. */
  function FirstEnd(docs: seq<LedgerDocument>, batchLimit: int): int {
    if |docs| > EffectiveLimit(batchLimit) then EffectiveLimit(batchLimit) else |docs|
  }

  /** What a call with a failing read tries to store: a checkpoint from entry 1 on. */
  lemma RestartedBatch(sha: Sha, cps: seq<Checkpoint>, docs: seq<LedgerDocument>, batchLimit: int, now: int)
    requires Numbered(docs) && docs != []
    ensures var batch := Batch(docs, LastSequence(cps, true), EffectiveLimit(batchLimit));
            batch != [] &&
            var cp := Over(sha, batch, now);
            Covers(sha, docs, cp) && cp.startSequence == 1 && cp.endSequence == FirstEnd(docs, batchLimit)
                && cp.createdAt == now
  {
    LaterOfNumbered(docs, 0, 0);
    var end := FirstEnd(docs, batchLimit);
    assert Batch(docs, LastSequence(cps, true), EffectiveLimit(batchLimit)) == docs[0..end];
    OverCovers(sha, docs, 0, end, now);
  }

  /** Only the first tile can have the id of a checkpoint that starts at entry 1. */
  lemma TakenIdIsFirst(sha: Sha, docs: seq<LedgerDocument>, cps: seq<Checkpoint>, cp: Checkpoint, i: nat)
    requires Tiles(sha, docs, cps) && i < |cps| && Covers(sha, docs, cp) && cp.startSequence == 1
    ensures cps[i].id == cp.id <==> i == 0 && cps[0].createdAt == cp.createdAt && cps[0].endSequence == cp.endSequence
  {
    assert TileAt(sha, docs, cps, i);
    TilesAreOrdered(sha, docs, cps, 0, i);
    if i > 0 {
      assert TileAt(sha, docs, cps, i - 1);
    }
    if cps[i].id == cp.id {
      CheckpointIdFixesRange(cps[i].createdAt, cps[i].startSequence, cps[i].endSequence,
                             cp.createdAt, cp.startSequence, cp.endSequence);
    }
  }

  /** Storing a checkpoint from entry 1 on, unless its id is taken. */
  lemma RestartedTiling(sha: Sha, docs: seq<LedgerDocument>, cps: seq<Checkpoint>, cp: Checkpoint)
    requires Tiles(sha, docs, cps) && Covers(sha, docs, cp) && cp.startSequence == 1
    ensures IdTaken(cps, cp.id) <==>
            cps != [] && cps[0].createdAt == cp.createdAt && cps[0].endSequence == cp.endSequence
    ensures Tiles(sha, docs, cps + [cp]) <==> cps == []
  {
    forall i | 0 <= i < |cps|
      ensures cps[i].id == cp.id <==> i == 0 && cps[0].createdAt == cp.createdAt && cps[0].endSequence == cp.endSequence
    {
      TakenIdIsFirst(sha, docs, cps, cp, i);
    }
    if cps != [] {
      assert TileAt(sha, docs, cps, |cps| - 1);
      assert cps[0].id == cp.id <==> cps[0].createdAt == cp.createdAt && cps[0].endSequence == cp.endSequence;
    }
    TilesExtend(sha, docs, cps, cp);
    hide Covers, Tiles;
  }

  /** When the query for the last checkpoint fails, the code starts again at entry 1. The call leaves a tiling exactly
      when there was no checkpoint yet, or the first one was made in the same second over the same entries, which the
      unique index refuses. */
  lemma FailedReadRestarts(sha: Sha, docs: seq<LedgerDocument>, cps: seq<Checkpoint>, batchLimit: int, now: int)
    requires Numbered(docs) && Tiles(sha, docs, cps)
    ensures var r := Generated(sha, cps, docs, batchLimit, now, true);
            Tiles(sha, docs, Stored(cps, r))
            <==> cps == [] || (cps[0].createdAt == now && cps[0].endSequence == FirstEnd(docs, batchLimit))
    ensures cps != [] && cps[0].createdAt == now && cps[0].endSequence == FirstEnd(docs, batchLimit) ==>
              Generated(sha, cps, docs, batchLimit, now, true).DuplicateId?
  {
    if docs == [] {
      assert Later(docs, 0) == [];
      assert cps != [] ==> TileAt(sha, docs, cps, 0);
    } else {
      RestartedBatch(sha, cps, docs, batchLimit, now);
      hide Batch, Over, LastSequence, Numbered, FirstEnd, Covers, Tiles;
      var cp := Over(sha, Batch(docs, LastSequence(cps, true), EffectiveLimit(batchLimit)), now);
      RestartedTiling(sha, docs, cps, cp);
    }
  }

  // ---- runs of calls ----

  datatype Call = Call(docs: seq<LedgerDocument>, batchLimit: int, now: int, readFails: bool)

  ghost function AfterCalls(sha: Sha, calls: seq<Call>): seq<Checkpoint> {
    if calls == [] then []
    else
      var cps, c := AfterCalls(sha, calls[..|calls| - 1]), calls[|calls| - 1];
      Stored(cps, Generated(sha, cps, c.docs, c.batchLimit, c.now, c.readFails))
  }

  /** The first call that found an entry; it made the first checkpoint. */
  function FirstCall(calls: seq<Call>): Option<Call> {
    if calls == [] then None
    else
      var first, c := FirstCall(calls[..|calls| - 1]), calls[|calls| - 1];
      if first.None? && c.docs != [] then Some(c) else first
  }

  /** A call whose read fails does no harm: nothing was stored before, or it repeats the first call within its
      second. */
  predicate Harmless(past: seq<Call>, c: Call) {
    match FirstCall(past)
    case None => true
    case Some(first) =>
      c.readFails ==> c.now == first.now && FirstEnd(c.docs, c.batchLimit) == FirstEnd(first.docs, first.batchLimit)
  }

  ghost predicate AllHarmless(calls: seq<Call>) {
    forall k :: 0 <= k < |calls| ==> Harmless(calls[..k], calls[k])
  }

  /** Calls over one growing ledger. */
  ghost predicate Growing(calls: seq<Call>, ledger: seq<LedgerDocument>) {
    && (forall i :: 0 <= i < |calls| ==> Numbered(calls[i].docs))
    && (forall i, j :: 0 <= i < j < |calls| ==> calls[i].docs <= calls[j].docs)
    && (calls != [] ==> calls[|calls| - 1].docs <= ledger)
  }

  /** The first checkpoint is the first call's, whether its read failed or not. */
  lemma {:induction false} FirstCheckpoint(sha: Sha, calls: seq<Call>, ledger: seq<LedgerDocument>)
    requires Growing(calls, ledger)
    ensures match FirstCall(calls)
            case None => AfterCalls(sha, calls) == []
            case Some(f) =>
              var cps := AfterCalls(sha, calls);
              cps != [] && cps[0].createdAt == f.now && cps[0].endSequence == FirstEnd(f.docs, f.batchLimit)
  {
    if calls != [] {
      var front, c := calls[..|calls| - 1], calls[|calls| - 1];
      FirstCheckpoint(sha, front, c.docs);
      FirstStore(sha, c);
      hide Generated, Numbered;
    }
  }

  lemma FirstStore(sha: Sha, c: Call)
    requires Numbered(c.docs)
    ensures var r := Generated(sha, [], c.docs, c.batchLimit, c.now, c.readFails);
            if c.docs == [] then r.NothingNew?
            else
              r.Created? && r.checkpoint.createdAt == c.now
                  && r.checkpoint.endSequence == FirstEnd(c.docs, c.batchLimit)
  {
    hide Covers, Over, Numbered, CheckpointId, FirstEnd;
    assert LastSequence([], c.readFails) == LastSequence([], true) == 0;
    if c.docs == [] {
      assert Later(c.docs, 0) == [];
    } else {
      hide Batch, LastSequence;
      RestartedBatch(sha, [], c.docs, c.batchLimit, c.now);
    }
  }

  lemma TilesOfPrefix(sha: Sha, docs: seq<LedgerDocument>, cps: seq<Checkpoint>, more: seq<Checkpoint>)
    requires cps <= more && Tiles(sha, docs, more)
    ensures Tiles(sha, docs, cps)
  {
    forall i | 0 <= i < |cps| ensures TileAt(sha, docs, cps, i) {
      assert TileAt(sha, docs, more, i);
    }
  }

  /** Successive calls over a growing ledger, each with its own reading of the last checkpoint, tile 1..last end with no
      gap and no overlap if and only if every failing read was harmless: it came before any checkpoint, or repeated the
      first call within the same second. In particular calls whose reads succeed always tile. */
  lemma {:induction false} SuccessiveCallsTile(sha: Sha, calls: seq<Call>, ledger: seq<LedgerDocument>)
    requires Growing(calls, ledger)
    ensures Tiles(sha, ledger, AfterCalls(sha, calls)) <==> AllHarmless(calls)
  {
    if calls != [] {
      var front, c := calls[..|calls| - 1], calls[|calls| - 1];
      var before := AfterCalls(sha, front);
      hide Generated, Tiles, Harmless, Numbered;
      SuccessiveCallsTile(sha, front, c.docs);
      SuccessiveCallsTile(sha, front, ledger);
      HarmlessFront(calls);
      if AllHarmless(front) {
        LastCallTiles(sha, front, c, ledger);
      } else if Tiles(sha, ledger, AfterCalls(sha, calls)) {
        TilesOfPrefix(sha, ledger, before, AfterCalls(sha, calls));
      }
    }
  }

  lemma HarmlessFront(calls: seq<Call>)
    requires calls != []
    ensures AllHarmless(calls) <==>
            AllHarmless(calls[..|calls| - 1]) && Harmless(calls[..|calls| - 1], calls[|calls| - 1])
  {
    var front := calls[..|calls| - 1];
    assert forall k :: 0 <= k < |front| ==> front[..k] == calls[..k];
    if AllHarmless(calls) {
      assert Harmless(calls[..|calls| - 1], calls[|calls| - 1]);
      forall k | 0 <= k < |front| ensures Harmless(front[..k], front[k]) {
        assert Harmless(calls[..k], calls[k]);
      }
    }
    if AllHarmless(front) && Harmless(front, calls[|calls| - 1]) {
      forall k | 0 <= k < |calls| ensures Harmless(calls[..k], calls[k]) {
        if k < |front| {
          assert Harmless(front[..k], front[k]);
        }
      }
    }
  }

  lemma LastCallTiles(sha: Sha, front: seq<Call>, c: Call, ledger: seq<LedgerDocument>)
    requires Growing(front + [c], ledger) && Tiles(sha, c.docs, AfterCalls(sha, front))
    ensures var cps := AfterCalls(sha, front);
            Tiles(sha, ledger, Stored(cps, Generated(sha, cps, c.docs, c.batchLimit, c.now, c.readFails))) <==>
                Harmless(front, c)
  {
    var cps := AfterCalls(sha, front);
    assert (front + [c])[|front|] == c;
    assert Growing(front, c.docs) by {
      assert forall i :: 0 <= i < |front| ==> (front + [c])[i] == front[i];
    }
    FirstCheckpoint(sha, front, c.docs);
    CallTilesFurther(sha, cps, c.docs, c.batchLimit, c.now);
    FailedReadRestarts(sha, c.docs, cps, c.batchLimit, c.now);
    var stored := Stored(cps, Generated(sha, cps, c.docs, c.batchLimit, c.now, c.readFails));
    if Tiles(sha, c.docs, stored) {
      TilesOfLonger(sha, c.docs, ledger, stored);
    } else if Tiles(sha, ledger, stored) {
      StoredCovers(sha, cps, c);
      TilesOfShorter(sha, c.docs, ledger, stored);
    }
  }

  /** What a call stores covers entries that it read. */
  lemma StoredCovers(sha: Sha, cps: seq<Checkpoint>, c: Call)
    requires Numbered(c.docs) && Tiles(sha, c.docs, cps)
    ensures var stored := Stored(cps, Generated(sha, cps, c.docs, c.batchLimit, c.now, c.readFails));
            forall i :: 0 <= i < |stored| ==> stored[i].endSequence <= |c.docs|
  {
    forall i | 0 <= i < |cps| ensures cps[i].endSequence <= |c.docs| {
      assert TileAt(sha, c.docs, cps, i);
    }
    var batch := Batch(c.docs, LastSequence(cps, c.readFails), EffectiveLimit(c.batchLimit));
    if c.docs != [] && c.readFails {
      RestartedBatch(sha, cps, c.docs, c.batchLimit, c.now);
    } else {
      NextBatch(sha, c.docs, cps, c.batchLimit);
    }
    assert batch != [] ==> Over(sha, batch, c.now).endSequence <= |c.docs|;
    hide Covers, Over, Numbered, LastSequence, Batch;
  }

  lemma TilesOfShorter(sha: Sha, docs: seq<LedgerDocument>, longer: seq<LedgerDocument>, cps: seq<Checkpoint>)
    requires docs <= longer && Tiles(sha, longer, cps) && forall i :: 0 <= i < |cps| ==> cps[i].endSequence <= |docs|
    ensures Tiles(sha, docs, cps)
  {
    forall i | 0 <= i < |cps| ensures TileAt(sha, docs, cps, i) {
      assert TileAt(sha, longer, cps, i);
      var s, e := cps[i].startSequence, cps[i].endSequence;
      assert longer[s - 1..e] == docs[s - 1..e];
    }
  }

  // ---- proofs for entries ----

  datatype ProofError = MissingHash | CheckpointNotFound | EntryNotFound

  datatype ProofResponse = ProofResponse(entryHash: string, checkpoint: Checkpoint, proof: AuditProof, verified: bool)

  function FindById(cps: seq<Checkpoint>, id: string): Option<Checkpoint> {
    if cps == [] then None else if cps[0].id == id then Some(cps[0]) else FindById(cps[1..], id)
  }

  /** The checkpoint a proof is made from. */
  function Chosen(cps: seq<Checkpoint>, cleanHash: string, checkpointId: string): Option<Checkpoint> {
    if checkpointId != "" then FindById(cps, checkpointId)
    else if Latest(cps, Some(cleanHash)).Some? then Latest(cps, Some(cleanHash))
    else Latest(cps, None)
  }

  method GenerateProofForEntry(sha: Sha, cps: seq<Checkpoint>, entryHash: string, checkpointId: string)
    returns (r: Result<ProofResponse, ProofError>)
    requires forall i :: 0 <= i < |cps| ==> cps[i].leafHashes != []
    ensures var h := Clean(entryHash);
            if h == "" then r == Err(MissingHash)
            else match Chosen(cps, h, checkpointId)
              case None => r == Err(CheckpointNotFound)
              case Some(cp) =>
                if h in CleanAll(cp.leafHashes) then
                  && r.Ok? && r.value.entryHash == h && r.value.checkpoint == cp
                  && r.value.proof.steps == Path(sha, FirstIndex(CleanAll(cp.leafHashes), h), CleanAll(cp.leafHashes))
                  && r.value.verified == Accepts(sha, h, Some(r.value.proof), cp.merkleRoot)
                else r == Err(EntryNotFound)
  {
    var cleanHash := Clean(entryHash);
    if cleanHash == "" {
      return Err(MissingHash);
    }
    var chosen := Chosen(cps, cleanHash, checkpointId);
    if chosen.None? {
      return Err(CheckpointNotFound);
    }
    var cp := chosen.value;
    FindByIdIsMember(cps, checkpointId);
    var tree := NewTree(sha, cp.leafHashes);
    CleanIdempotent(entryHash);
    FindPathIsRfcPath(sha, CleanAll(cp.leafHashes), cleanHash);
    var proof := GetProof(Some(tree.value), cleanHash);
    if proof.Err? {
      return Err(EntryNotFound);
    }
    var verified := VerifyProof(sha, cleanHash, Some(proof.value), cp.merkleRoot);
    return Ok(ProofResponse(cleanHash, cp, proof.value, verified));
  }

  lemma {:induction false} FindByIdIsMember(cps: seq<Checkpoint>, id: string)
    ensures FindById(cps, id).Some? ==> FindById(cps, id).value in cps && FindById(cps, id).value.id == id
    ensures FindById(cps, id).None? ==> forall i :: 0 <= i < |cps| ==> cps[i].id != id
  {
    if cps != [] && cps[0].id != id {
      FindByIdIsMember(cps[1..], id);
    }
  }

  lemma {:induction false} LatestIsGreatest(cps: seq<Checkpoint>, leaf: Option<string>, i: nat)
    requires i < |cps| && (leaf.Some? ==> leaf.value in cps[i].leafHashes)
    ensures Latest(cps, leaf).Some? && cps[i].endSequence <= Latest(cps, leaf).value.endSequence
  {
    var front := cps[..|cps| - 1];
    if i < |front| {
      LatestIsGreatest(front, leaf, i);
    }
  }

  /** A named checkpoint is the one used, or there is none of that id. Otherwise it is the one that reaches furthest
      among those that hold the leaf, or among all if none does. */
  lemma ChosenCheckpoint(cps: seq<Checkpoint>, h: string, id: string)
    ensures var chosen := Chosen(cps, h, id);
            if id != "" then
              if chosen.Some? then chosen.value in cps && chosen.value.id == id
              else forall i :: 0 <= i < |cps| ==> cps[i].id != id
            else if exists i :: 0 <= i < |cps| && h in cps[i].leafHashes then
              && chosen.Some? && chosen.value in cps && h in chosen.value.leafHashes
              && forall i :: 0 <= i < |cps| && h in cps[i].leafHashes ==> cps[i].endSequence <= chosen.value.endSequence
            else if cps == [] then chosen.None?
            else
              && chosen.Some? && chosen.value in cps
              && forall i :: 0 <= i < |cps| ==> cps[i].endSequence <= chosen.value.endSequence
  {
    FindByIdIsMember(cps, id);
    forall i | 0 <= i < |cps|
      ensures Latest(cps, None).Some? && cps[i].endSequence <= Latest(cps, None).value.endSequence
      ensures h in cps[i].leafHashes ==>
                Latest(cps, Some(h)).Some? && cps[i].endSequence <= Latest(cps, Some(h)).value.endSequence
    {
      LatestIsGreatest(cps, None, i);
      if h in cps[i].leafHashes {
        LatestIsGreatest(cps, Some(h), i);
      }
    }
    if Latest(cps, Some(h)).Some? {
      var cp := Latest(cps, Some(h)).value;
      var i :| 0 <= i < |cps| && cps[i] == cp;
      assert h in cps[i].leafHashes;
    }
  }

  ghost predicate AllDigests(docs: seq<LedgerDocument>) {
    forall i :: 0 <= i < |docs| ==> IsDigest(docs[i].entryHash)
  }

  lemma DigestsAreLeaves(docs: seq<LedgerDocument>)
    requires AllDigests(docs)
    ensures CleanAll(LeafHashes(docs)) == LeafHashes(docs)
    ensures forall i :: 0 <= i < |docs| ==> LeafHashes(docs)[i] == docs[i].entryHash
  {
    forall i | 0 <= i < |docs| ensures Clean(LeafHashes(docs)[i]) == LeafHashes(docs)[i] {
      DigestIsClean(docs[i].entryHash);
    }
  }

  /** Which checkpoint holds an entry below the last end. */
  lemma {:induction false} SomeTileHolds(sha: Sha, docs: seq<LedgerDocument>, cps: seq<Checkpoint>, k: nat, n: nat)
    returns (i: nat)
    requires Tiles(sha, docs, cps) && n <= |cps| && k < EndBefore(cps, n)
    ensures i < |cps| && cps[i].startSequence <= k + 1 <= cps[i].endSequence
  {
    assert TileAt(sha, docs, cps, n - 1);
    if k + 1 >= cps[n - 1].startSequence {
      i := n - 1;
    } else {
      i := SomeTileHolds(sha, docs, cps, k, n - 1);
    }
  }

  /** Every entry under a checkpoint gets, without naming the checkpoint, a proof that verifies against a stored
      root and has at most ceil(log2 entryCount) steps. */
  lemma CoveredEntryIsProved(sha: Sha, docs: seq<LedgerDocument>, cps: seq<Checkpoint>, k: nat, d: nat)
    requires IsSha(sha) && AllDigests(docs) && Tiles(sha, docs, cps) && k < EndBefore(cps, |cps|) <= |docs|
    ensures var h := Clean(docs[k].entryHash);
            var chosen := Chosen(cps, h, "");
            && h == docs[k].entryHash && chosen.Some? && chosen.value in cps
            && var hs := CleanAll(chosen.value.leafHashes);
               && h in hs
               && var steps := Path(sha, FirstIndex(hs, h), hs);
                  && (forall p: AuditProof :: p.steps == steps ==> Accepts(sha, h, Some(p), chosen.value.merkleRoot))
                  && (chosen.value.entryCount <= Pow2(d) ==> |steps| <= d)
  {
    var i := SomeTileHolds(sha, docs, cps, k, |cps|);
    var h := docs[k].entryHash;
    DigestIsClean(h);
    TileLeaves(sha, docs, cps, i);
    assert cps[i].leafHashes[k + 1 - cps[i].startSequence] == h;
    var cp := Latest(cps, Some(h)).value;
    var j :| 0 <= j < |cps| && cps[j] == cp;
    TileLeaves(sha, docs, cps, j);
    PathOfCoveredEntry(sha, cp.leafHashes, h, d);
  }

  lemma TileLeaves(sha: Sha, docs: seq<LedgerDocument>, cps: seq<Checkpoint>, i: nat)
    requires AllDigests(docs) && Tiles(sha, docs, cps) && i < |cps|
    ensures var cp := cps[i];
            && 1 <= cp.startSequence <= cp.endSequence <= |docs|
            && cp.entryCount == |cp.leafHashes| == cp.endSequence - cp.startSequence + 1
            && CleanAll(cp.leafHashes) == cp.leafHashes && cp.merkleRoot == Mth(sha, cp.leafHashes)
            && forall m :: 0 <= m < |cp.leafHashes| ==>
                 IsDigest(cp.leafHashes[m]) && cp.leafHashes[m] == docs[cp.startSequence - 1 + m].entryHash
  {
    hide Mth;
    assert TileAt(sha, docs, cps, i);
    var part := docs[cps[i].startSequence - 1..cps[i].endSequence];
    assert AllDigests(part);
    DigestsAreLeaves(part);
  }

  lemma PathOfCoveredEntry(sha: Sha, hs: seq<string>, h: string, d: nat)
    requires IsSha(sha) && h in hs && CleanAll(hs) == hs && forall m :: 0 <= m < |hs| ==> IsDigest(hs[m])
    ensures var p := Path(sha, FirstIndex(hs, h), hs);
            && (forall proof: AuditProof :: proof.steps == p ==> Accepts(sha, h, Some(proof), Mth(sha, hs)))
            && (|hs| <= Pow2(d) ==> |p| <= d)
  {
    var m := FirstIndex(hs, h);
    assert AllClean(hs) by {
      forall i | 0 <= i < |hs| ensures Clean(hs[i]) == hs[i] {
        assert CleanAll(hs)[i] == Clean(hs[i]);
      }
    }
    PathFoldsToRoot(sha, m, hs);
    MthIsClean(sha, hs);
    DigestIsClean(h);
    RootIsNotEmpty(sha, hs);
    if |hs| <= Pow2(d) {
      PathIsShort(sha, m, hs, d);
    }
  }

  lemma RootIsNotEmpty(sha: Sha, hs: seq<string>)
    requires IsSha(sha) && hs != [] && IsDigest(hs[0])
    ensures Mth(sha, hs) != ""
  {
    if |hs| > 1 {
      var k := Split(|hs|);
      ShaIsDigest(sha, PairInput(Mth(sha, hs[..k]), Mth(sha, hs[k..])));
    }
  }

  /** An accepted proof for the hash of an entry text against a stored root shows that this text is sealed in the
      checkpoint's own range of the ledger, or two of the texts hashed collide. */
  lemma CheckpointProofIsSound(sha: Sha, docs: seq<LedgerDocument>, cps: seq<Checkpoint>, i: nat, x: string,
                               proof: AuditProof)
    requires IsSha(sha) && IsChain(sha, docs) && AllDigests(docs) && Tiles(sha, docs, cps) && i < |cps|
    requires IsEntryInput(x) && Accepts(sha, sha(x), Some(proof), cps[i].merkleRoot)
    ensures var s, e := cps[i].startSequence, cps[i].endSequence;
            1 <= s <= e <= |docs| &&
            var texts := DocInputs(docs[s - 1..e]);
            x in texts || Collision(sha, {x} + FoldInputs(sha, sha(x), proof.steps), TreeInputs(sha, texts))
  {
    TileLeaves(sha, docs, cps, i);
    var part := docs[cps[i].startSequence - 1..cps[i].endSequence];
    var texts := DocInputs(part);
    forall m | 0 <= m < |part| ensures IsEntryInput(texts[m]) && sha(texts[m]) == cps[i].leafHashes[m] {
      assert IntactAt(sha, docs, cps[i].startSequence - 1 + m);
      ChainInputsAreEntryInputs(sha, docs, cps[i].startSequence - 1 + m);
    }
    assert Digests(sha, texts) == cps[i].leafHashes;
    VerifiedEntryIsInCheckpoint(sha, x, Some(proof), texts);
  }

  function DocInputs(docs: seq<LedgerDocument>): seq<string> {
    seq(|docs|, i requires 0 <= i < |docs| => DocInput(docs[i]))
  }
}
