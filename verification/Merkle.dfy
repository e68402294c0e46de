/** The audit tree of pkg/merkle/tree.go, against section 2.1 of RFC 6962. */
module Merkle {
  import opened Hashing

  datatype Node = Leaf(hash: string) | Inner(hash: string, left: Node, right: Node)

  datatype ProofStep = ProofStep(siblingHash: string, isRight: bool)

  datatype AuditProof = AuditProof(leafHash: string, rootHash: string, steps: seq<ProofStep>)

  datatype Tree = Tree(root: Node, leaves: seq<Node>)

  datatype Error = ErrEmptyTree | ErrLeafNotFound

  const PAIR_TAG: string := [1 as char]

  function PairInput(left: string, right: string): string {
    PAIR_TAG + left + right
  }

  function HashPair(sha: Sha, left: string, right: string): string {
    sha(PairInput(left, right))
  }

  function Join(sha: Sha, left: Node, right: Node): Node {
    Inner(HashPair(sha, left.hash, right.hash), left, right)
  }

  // ---- section 2.1 of RFC 6962 ----

  predicate IsPowerOfTwo(k: nat) {
    k == 1 || (k > 1 && k % 2 == 0 && IsPowerOfTwo(k / 2))
  }

  /** The k of RFC 6962: the largest power of two below n. */
  function Split(n: nat): (k: nat)
    requires n >= 2
    ensures IsPowerOfTwo(k) && k < n <= 2 * k
  {
    if n == 2 then 1 else 2 * Split((n + 1) / 2)
  }

  lemma {:induction false} SplitIsUnique(n: nat, k: nat)
    requires n >= 2 && IsPowerOfTwo(k) && k < n <= 2 * k
    ensures k == Split(n)
  {
    if n > 2 {
      SplitIsUnique((n + 1) / 2, k / 2);
    }
  }

  /** Merkle Tree Hash of a list of leaf hashes. */
  function Mth(sha: Sha, hs: seq<string>): string
    requires hs != []
    decreases |hs|
  {
    if |hs| == 1 then hs[0]
    else var k := Split(|hs|); sha([1 as char] + Mth(sha, hs[..k]) + Mth(sha, hs[k..]))
  }

  /** Audit path of leaf m (section 2.1.1), each sibling with its side. */
  function Path(sha: Sha, m: nat, hs: seq<string>): seq<ProofStep>
    requires m < |hs|
    decreases |hs|
  {
    if |hs| == 1 then []
    else
      var k := Split(|hs|);
      if m < k then Path(sha, m, hs[..k]) + [ProofStep(Mth(sha, hs[k..]), true)]
      else Path(sha, m - k, hs[k..]) + [ProofStep(Mth(sha, hs[..k]), false)]
  }

  /** The tree whose hashes are the Merkle Tree Hashes of all the sublists. */
  function RfcTree(sha: Sha, nodes: seq<Node>): Node
    requires nodes != []
    decreases |nodes|
  {
    if |nodes| == 1 then nodes[0]
    else var k := Split(|nodes|); Join(sha, RfcTree(sha, nodes[..k]), RfcTree(sha, nodes[k..]))
  }

  // ---- the level-by-level loop ----

  /** One round of the loop: pair neighbours, promote an odd last node. */
  function PairUp(sha: Sha, level: seq<Node>): seq<Node> {
    if |level| <= 1 then level else [Join(sha, level[0], level[1])] + PairUp(sha, level[2..])
  }

  lemma {:induction false} PairUpConcat(sha: Sha, a: seq<Node>, b: seq<Node>)
    requires |a| % 2 == 0
    ensures |PairUp(sha, a)| == (|a| + 1) / 2
    ensures PairUp(sha, a + b) == PairUp(sha, a) + PairUp(sha, b)
  {
    hide Join;
    if a == [] {
      assert a + b == b;
    } else {
      var ab := a + b;
      PairUpConcat(sha, a[2..], b);
      assert ab[2..] == a[2..] + b;
      assert ab[0] == a[0] && ab[1] == a[1];
    }
  }

  lemma {:induction false} PairUpLength(sha: Sha, level: seq<Node>)
    ensures |PairUp(sha, level)| == (|level| + 1) / 2
  {
    if |level| > 1 {
      PairUpLength(sha, level[2..]);
    }
  }

  /** A round of pairing does not change the recursive tree. */
  lemma {:induction false} PairUpKeepsTree(sha: Sha, nodes: seq<Node>)
    requires nodes != []
    ensures PairUp(sha, nodes) != [] && RfcTree(sha, PairUp(sha, nodes)) == RfcTree(sha, nodes)
    decreases |nodes|
  {
    PairUpLength(sha, nodes);
    if |nodes| > 2 {
      var k := Split(|nodes|);
      var up := PairUp(sha, nodes);
      assert nodes == nodes[..k] + nodes[k..];
      PairUpConcat(sha, nodes[..k], nodes[k..]);
      PairUpKeepsTree(sha, nodes[..k]);
      PairUpKeepsTree(sha, nodes[k..]);
      assert Split(|up|) == k / 2;
      assert up[..k / 2] == PairUp(sha, nodes[..k]) && up[k / 2..] == PairUp(sha, nodes[k..]);
    }
  }

  function Leaves(hs: seq<string>): seq<Node> {
    seq(|hs|, i requires 0 <= i < |hs| => Leaf(hs[i]))
  }

  function CleanAll(hs: seq<string>): seq<string> {
    seq(|hs|, i requires 0 <= i < |hs| => Clean(hs[i]))
  }

  /** The root hash of the recursive tree is the Merkle Tree Hash. */
  lemma {:induction false} TreeHash(sha: Sha, hs: seq<string>)
    requires hs != []
    ensures RfcTree(sha, Leaves(hs)).hash == Mth(sha, hs)
    decreases |hs|
  {
    if |hs| > 1 {
      var k := Split(|hs|);
      TreeHash(sha, hs[..k]);
      TreeHash(sha, hs[k..]);
      assert Leaves(hs)[..k] == Leaves(hs[..k]) && Leaves(hs)[k..] == Leaves(hs[k..]);
    }
  }

  /** NewTree builds exactly the RFC 6962 tree over the cleaned leaf hashes. */
  method NewTree(sha: Sha, leafHashes: seq<string>) returns (r: Result<Tree, Error>)
    ensures leafHashes == [] <==> r == Err(ErrEmptyTree)
    ensures leafHashes != [] ==>
              && r.Ok?
              && r.value.leaves == Leaves(CleanAll(leafHashes))
              && r.value.root == RfcTree(sha, r.value.leaves)
              && r.value.root.hash == Mth(sha, CleanAll(leafHashes))
  {
    if |leafHashes| == 0 {
      return Err(ErrEmptyTree);
    }
    var leaves: seq<Node> := [];
    for i := 0 to |leafHashes|
      invariant leaves == Leaves(CleanAll(leafHashes))[..i]
    {
      leaves := leaves + [Leaf(Clean(leafHashes[i]))];
    }
    assert leaves == Leaves(CleanAll(leafHashes));
    TreeHash(sha, CleanAll(leafHashes));
    if |leaves| == 1 {
      return Ok(Tree(leaves[0], leaves));
    }
    var currentLevel := leaves;
    while |currentLevel| > 1
      invariant currentLevel != [] && RfcTree(sha, currentLevel) == RfcTree(sha, leaves)
      decreases |currentLevel|
    {
      PairUpKeepsTree(sha, currentLevel);
      PairUpLength(sha, currentLevel);
      currentLevel := NextLevel(sha, currentLevel);
    }
    return Ok(Tree(currentLevel[0], leaves));
  }

  /** The body of the loop over levels. */
  method NextLevel(sha: Sha, currentLevel: seq<Node>) returns (nextLevel: seq<Node>)
    ensures nextLevel == PairUp(sha, currentLevel)
  {
    nextLevel := [];
    var numNodes := |currentLevel|;
    var i := 0;
    while i < numNodes
      invariant 0 <= i <= numNodes + 1
      invariant PairUp(sha, currentLevel) ==
                nextLevel + PairUp(sha, currentLevel[if i < numNodes then i else numNodes..])
      decreases numNodes - i
    {
      if i + 1 < numNodes {
        var left, right := currentLevel[i], currentLevel[i + 1];
        assert currentLevel[i..][2..] == currentLevel[i + 2..];
        nextLevel := nextLevel + [Inner(HashPair(sha, left.hash, right.hash), left, right)];
      } else {
        assert currentLevel[i..] == [currentLevel[i]];
        nextLevel := nextLevel + [currentLevel[i]];
      }
      i := i + 2;
    }
  }

  // ---- proofs ----

  /** The slice that findPath appends to through its pointer. */
  class StepBuffer {
    var steps: seq<ProofStep>
    constructor ()
      ensures steps == []
    {
      steps := [];
    }
  }

  /** Siblings from the leftmost leaf holding `target` up to `current`. */
  function PathIn(current: Node, target: string): Option<seq<ProofStep>> {
    match current
    case Leaf(h) => if h == target then Some([]) else None
    case Inner(_, l, r) =>
      match PathIn(l, target)
      case Some(s) => Some(s + [ProofStep(r.hash, true)])
      case None =>
        match PathIn(r, target)
        case Some(s) => Some(s + [ProofStep(l.hash, false)])
        case None => None
  }

  method FindPath(current: Node, target: string, buffer: StepBuffer) returns (found: bool)
    modifies buffer
    ensures found == PathIn(current, target).Some?
    ensures buffer.steps == old(buffer.steps) + (if found then PathIn(current, target).value else [])
  {
    match current {
      case Leaf(h) =>
        found := h == target;
      case Inner(_, l, r) =>
        found := FindPath(l, target, buffer);
        if found {
          buffer.steps := buffer.steps + [ProofStep(r.hash, true)];
          return;
        }
        found := FindPath(r, target, buffer);
        if found {
          buffer.steps := buffer.steps + [ProofStep(l.hash, false)];
        }
    }
  }

  method GetProof(t: Option<Tree>, leafHash: string) returns (r: Result<AuditProof, Error>)
    ensures t.None? <==> r == Err(ErrEmptyTree)
    ensures t.Some? ==>
              match PathIn(t.value.root, Clean(leafHash))
              case None => r == Err(ErrLeafNotFound)
              case Some(steps) => r == Ok(AuditProof(Clean(leafHash), t.value.root.hash, steps))
  {
    if t.None? {
      return Err(ErrEmptyTree);
    }
    var cleanTarget := Clean(leafHash);
    var buffer := new StepBuffer();
    var found := FindPath(t.value.root, cleanTarget, buffer);
    if !found {
      return Err(ErrLeafNotFound);
    }
    assert buffer.steps == PathIn(t.value.root, cleanTarget).value;
    return Ok(AuditProof(cleanTarget, t.value.root.hash, buffer.steps));
  }

  function Up(sha: Sha, current: string, step: ProofStep): string {
    sha(UpInput(current, step))
  }

  function UpInput(current: string, step: ProofStep): string {
    var sibling := Clean(step.siblingHash);
    if step.isRight then PairInput(current, sibling) else PairInput(sibling, current)
  }

  /** The value VerifyProof holds after all the steps. */
  function Fold(sha: Sha, current: string, steps: seq<ProofStep>): string {
    if steps == [] then current else Up(sha, Fold(sha, current, steps[..|steps| - 1]), steps[|steps| - 1])
  }

  predicate Accepts(sha: Sha, leafHash: string, proof: Option<AuditProof>, expectedRoot: string) {
    && proof.Some? && leafHash != "" && expectedRoot != ""
    && Fold(sha, Clean(leafHash), proof.value.steps) == Clean(expectedRoot)
  }

  method VerifyProof(sha: Sha, leafHash: string, proof: Option<AuditProof>, expectedRoot: string) returns (ok: bool)
    ensures ok == Accepts(sha, leafHash, proof, expectedRoot)
  {
    if proof.None? || leafHash == "" || expectedRoot == "" {
      return false;
    }
    var current := Clean(leafHash);
    var steps := proof.value.steps;
    for i := 0 to |steps|
      invariant current == Fold(sha, Clean(leafHash), steps[..i])
    {
      assert steps[..i + 1][..i] == steps[..i];
      var sibling := Clean(steps[i].siblingHash);
      if steps[i].isRight {
        current := HashPair(sha, current, sibling);
      } else {
        current := HashPair(sha, sibling, current);
      }
    }
    assert steps[..|steps|] == steps;
    return current == Clean(expectedRoot);
  }

  // ---- completeness: generated proofs are RFC 6962 audit paths, short, and accepted ----

  function FirstIndex(hs: seq<string>, h: string): (m: nat)
    requires h in hs
    ensures m < |hs| && hs[m] == h && h !in hs[..m]
  {
    if hs[0] == h then 0 else
      assert hs == [hs[0]] + hs[1..];
      1 + FirstIndex(hs[1..], h)
  }

  lemma {:induction false} FirstIndexIsUnique(hs: seq<string>, h: string, m: nat)
    requires m < |hs| && hs[m] == h && h !in hs[..m]
    ensures FirstIndex(hs, h) == m
  {
    if m > 0 {
      assert hs[..m][0] == hs[0] && hs[1..][..m - 1] == hs[..m][1..];
      FirstIndexIsUnique(hs[1..], h, m - 1);
    }
  }

  lemma FirstIndexOnLeft(hs: seq<string>, h: string, k: nat)
    requires k <= |hs| && h in hs[..k]
    ensures FirstIndex(hs, h) == FirstIndex(hs[..k], h)
  {
    var j := FirstIndex(hs[..k], h);
    assert hs[..k][..j] == hs[..j];
    FirstIndexIsUnique(hs, h, j);
  }

  lemma FirstIndexOnRight(hs: seq<string>, h: string, k: nat)
    requires k <= |hs| && h !in hs[..k] && h in hs[k..]
    ensures h in hs && FirstIndex(hs, h) == k + FirstIndex(hs[k..], h)
  {
    var j := FirstIndex(hs[k..], h);
    assert hs[..k + j] == hs[..k] + hs[k..][..j];
    FirstIndexIsUnique(hs, h, k + j);
  }

  /** findPath on the built tree yields the RFC 6962 audit path of the first occurrence, and fails
      exactly for hashes that are not leaves. */
  lemma {:induction false} FindPathIsRfcPath(sha: Sha, hs: seq<string>, target: string)
    requires hs != []
    ensures PathIn(RfcTree(sha, Leaves(hs)), target) ==
            if target in hs then Some(Path(sha, FirstIndex(hs, target), hs)) else None
    decreases |hs|
  {
    if |hs| > 1 {
      var k := Split(|hs|);
      assert Leaves(hs)[..k] == Leaves(hs[..k]) && Leaves(hs)[k..] == Leaves(hs[k..]);
      TreeHash(sha, hs[..k]);
      TreeHash(sha, hs[k..]);
      assert RfcTree(sha, Leaves(hs)) == Join(sha, RfcTree(sha, Leaves(hs[..k])), RfcTree(sha, Leaves(hs[k..])));
      hide Mth, IsPowerOfTwo, FirstIndex, RfcTree, Leaves, HashPair;
      FindPathIsRfcPath(sha, hs[..k], target);
      FindPathIsRfcPath(sha, hs[k..], target);
      assert hs == hs[..k] + hs[k..];
      if target in hs[..k] {
        FirstIndexOnLeft(hs, target, k);
      } else if target in hs[k..] {
        FirstIndexOnRight(hs, target, k);
      }
    }
  }

  ghost predicate AllClean(hs: seq<string>) {
    forall i :: 0 <= i < |hs| ==> Clean(hs[i]) == hs[i]
  }

  lemma MthIsClean(sha: Sha, hs: seq<string>)
    requires IsSha(sha)
    requires hs != [] && AllClean(hs)
    ensures Clean(Mth(sha, hs)) == Mth(sha, hs)
  {
    if |hs| > 1 {
      DigestIsClean(Mth(sha, hs));
    }
  }

  /** Folding the audit path of a leaf gives the Merkle Tree Hash. */
  lemma {:induction false} PathFoldsToRoot(sha: Sha, m: nat, hs: seq<string>)
    requires IsSha(sha)
    requires m < |hs| && AllClean(hs)
    ensures Fold(sha, hs[m], Path(sha, m, hs)) == Mth(sha, hs)
    decreases |hs|
  {
    if |hs| > 1 {
      var k := Split(|hs|);
      var p := Path(sha, m, hs);
      MthIsClean(sha, hs[..k]);
      MthIsClean(sha, hs[k..]);
      if m < k {
        PathFoldsToRoot(sha, m, hs[..k]);
        assert p[..|p| - 1] == Path(sha, m, hs[..k]);
      } else {
        PathFoldsToRoot(sha, m - k, hs[k..]);
        assert p[..|p| - 1] == Path(sha, m - k, hs[k..]);
      }
    }
  }

  function Pow2(d: nat): nat {
    if d == 0 then 1 else 2 * Pow2(d - 1)
  }

  /** A path has at most ceil(log2 n) steps: d steps suffice as soon as 2^d >= n. */
  lemma {:induction false} PathIsShort(sha: Sha, m: nat, hs: seq<string>, d: nat)
    requires m < |hs| <= Pow2(d)
    ensures |Path(sha, m, hs)| <= d
    decreases |hs|
  {
    if |hs| > 1 {
      var k := Split(|hs|);
      SplitBelowPow2(|hs|, d);
      if m < k {
        PathIsShort(sha, m, hs[..k], d - 1);
      } else {
        PathIsShort(sha, m - k, hs[k..], d - 1);
      }
    }
  }

  lemma {:induction false} SplitBelowPow2(n: nat, d: nat)
    requires 2 <= n <= Pow2(d)
    ensures d > 0 && Split(n) <= Pow2(d - 1)
  {
    if n > 2 {
      SplitBelowPow2((n + 1) / 2, d - 1);
    }
  }

  /** For every tree NewTree returns and every requested hash: a proof is produced exactly for the leaves,
      and VerifyProof accepts it unless one of its two inputs is the empty string it always refuses. */
  lemma GeneratedProofVerifies(sha: Sha, leafHashes: seq<string>, requested: string, d: nat)
    requires IsSha(sha)
    requires leafHashes != [] && |leafHashes| <= Pow2(d)
    ensures var hs := CleanAll(leafHashes);
            var root := RfcTree(sha, Leaves(hs));
            match PathIn(root, Clean(requested))
            case None => Clean(requested) !in hs
            case Some(steps) =>
              && Clean(requested) in hs && |steps| <= d
              && var proof := Some(AuditProof(Clean(requested), root.hash, steps));
                 Accepts(sha, requested, proof, root.hash) <==> requested != "" && root.hash != ""
  {
    var hs := CleanAll(leafHashes);
    forall i | 0 <= i < |hs| ensures Clean(hs[i]) == hs[i] {
      CleanIdempotent(leafHashes[i]);
    }
    FindPathIsRfcPath(sha, hs, Clean(requested));
    TreeHash(sha, hs);
    if Clean(requested) in hs {
      var m := FirstIndex(hs, Clean(requested));
      PathFoldsToRoot(sha, m, hs);
      PathIsShort(sha, m, hs, d);
      MthIsClean(sha, hs);
    }
  }

  // ---- soundness ----

  /** Entry hash inputs begin with a hex digit (the previous hash), pair inputs with byte 0x01. */
  predicate IsEntryInput(x: string) {
    x != "" && IsHexDigit(x[0])
  }

  ghost predicate AllEntryInputs(xs: seq<string>) {
    forall i :: 0 <= i < |xs| ==> IsEntryInput(xs[i])
  }

  function Digests(sha: Sha, xs: seq<string>): seq<string> {
    seq(|xs|, i requires 0 <= i < |xs| => sha(xs[i]))
  }

  /** The last input hashed while computing the root over the entries xs. */
  ghost function RootInput(sha: Sha, xs: seq<string>): string
    requires xs != []
    decreases |xs|
  {
    if |xs| == 1 then xs[0]
    else var k := Split(|xs|); PairInput(sha(RootInput(sha, xs[..k])), sha(RootInput(sha, xs[k..])))
  }

  /** Every input hashed while computing that root. */
  ghost function TreeInputs(sha: Sha, xs: seq<string>): set<string>
    requires xs != []
    decreases |xs|
  {
    {RootInput(sha, xs)}
    + if |xs| == 1 then {} else var k := Split(|xs|); TreeInputs(sha, xs[..k]) + TreeInputs(sha, xs[k..])
  }

  /** Every input hashed while folding a proof. */
  ghost function FoldInputs(sha: Sha, current: string, steps: seq<ProofStep>): set<string> {
    if steps == [] then {}
    else
      var front := steps[..|steps| - 1];
      {UpInput(Fold(sha, current, front), steps[|steps| - 1])} + FoldInputs(sha, current, front)
  }

  lemma {:induction false} RootInputHashesToRoot(sha: Sha, xs: seq<string>)
    requires xs != []
    ensures Mth(sha, Digests(sha, xs)) == sha(RootInput(sha, xs))
    decreases |xs|
  {
    if |xs| > 1 {
      var k := Split(|xs|);
      RootInputHashesToRoot(sha, xs[..k]);
      RootInputHashesToRoot(sha, xs[k..]);
      assert Digests(sha, xs)[..k] == Digests(sha, xs[..k]) && Digests(sha, xs)[k..] == Digests(sha, xs[k..]);
    }
  }

  lemma RootInputTag(sha: Sha, xs: seq<string>)
    requires xs != [] && AllEntryInputs(xs)
    ensures RootInput(sha, xs) != ""
    ensures |xs| > 1 <==> RootInput(sha, xs)[0] == 1 as char
  {
  }

  lemma PairInputSplits(a: string, b: string, c: string, d: string)
    requires PairInput(a, b) == PairInput(c, d)
    requires |c| == 64 && |d| == 64
    ensures |a| == 64 ==> a == c
    ensures |b| == 64 ==> b == d
  {
    var p, q := PairInput(a, b), PairInput(c, d);
    assert |a| == 64 ==> p[1..65] == a && q[1..65] == c;
    assert |b| == 64 ==> p[|p| - 64..] == b && q[|q| - 64..] == d;
  }

  lemma {:induction false} FoldLength(sha: Sha, x: string, steps: seq<ProofStep>)
    requires IsSha(sha)
    ensures |Fold(sha, sha(x), steps)| == 64
  {
  }

  /** Accepting a proof for the digest of an entry against the root of a checkpoint shows that the entry
      is one of the checkpoint's, or two of the inputs hashed on the two sides collide. */
  lemma {:induction false} AcceptedEntryIsLeaf(sha: Sha, x: string, steps: seq<ProofStep>, xs: seq<string>)
    requires IsSha(sha)
    requires IsEntryInput(x) && xs != [] && AllEntryInputs(xs)
    requires Fold(sha, sha(x), steps) == sha(RootInput(sha, xs))
    ensures x in xs || Collision(sha, {x} + FoldInputs(sha, sha(x), steps), TreeInputs(sha, xs))
    decreases |steps|
  {
    var rootInput := RootInput(sha, xs);
    RootInputTag(sha, xs);
    if steps == [] {
      assert x == rootInput || (x in {x} && rootInput in TreeInputs(sha, xs));
    } else {
      var front, last := steps[..|steps| - 1], steps[|steps| - 1];
      var current := Fold(sha, sha(x), front);
      var top := UpInput(current, last);
      assert top in {x} + FoldInputs(sha, sha(x), steps) && rootInput in TreeInputs(sha, xs);
      if top == rootInput {
        var k := Split(|xs|);
        FoldLength(sha, x, front);
        var sibling := Clean(last.siblingHash);
        if last.isRight {
          PairInputSplits(current, sibling, sha(RootInput(sha, xs[..k])), sha(RootInput(sha, xs[k..])));
          AcceptedEntryIsLeaf(sha, x, front, xs[..k]);
        } else {
          PairInputSplits(sibling, current, sha(RootInput(sha, xs[..k])), sha(RootInput(sha, xs[k..])));
          AcceptedEntryIsLeaf(sha, x, front, xs[k..]);
        }
      }
    }
  }

  /** VerifyProof itself: what acceptance of an entry hash against a checkpoint root means. */
  lemma VerifiedEntryIsInCheckpoint(sha: Sha, x: string, proof: Option<AuditProof>, xs: seq<string>)
    requires IsSha(sha)
    requires IsEntryInput(x) && xs != [] && AllEntryInputs(xs)
    requires Accepts(sha, sha(x), proof, Mth(sha, Digests(sha, xs)))
    ensures x in xs || Collision(sha, {x} + FoldInputs(sha, sha(x), proof.value.steps), TreeInputs(sha, xs))
  {
    RootInputHashesToRoot(sha, xs);
    DigestIsClean(sha(x));
    DigestIsClean(sha(RootInput(sha, xs)));
    AcceptedEntryIsLeaf(sha, x, proof.value.steps, xs);
  }

  /** That the hash is an entry's is needed: VerifyProof accepts every root as a "leaf" of itself, and with two
      leaves or more the root is a leaf only if its pair input collides with an entry. */
  lemma RootIsAcceptedAsLeaf(sha: Sha, xs: seq<string>)
    requires IsSha(sha)
    requires |xs| >= 2 && AllEntryInputs(xs)
    ensures var root := Mth(sha, Digests(sha, xs));
            && Accepts(sha, root, Some(AuditProof(root, root, [])), root)
            && (root in Digests(sha, xs) ==> Collision(sha, {RootInput(sha, xs)}, set x | x in xs))
  {
    RootInputHashesToRoot(sha, xs);
    RootInputTag(sha, xs);
    var root := Mth(sha, Digests(sha, xs));
    if root in Digests(sha, xs) {
      var i :| 0 <= i < |xs| && Digests(sha, xs)[i] == root;
      assert RootInput(sha, xs) in {RootInput(sha, xs)} && xs[i] in (set x | x in xs);
      assert RootInput(sha, xs) != xs[i];
    }
  }

  /** The digests of all the nodes of the tree over the entries xs. */
  ghost function NodeDigests(sha: Sha, xs: seq<string>): set<string>
    requires xs != []
    decreases |xs|
  {
    {sha(RootInput(sha, xs))}
    + if |xs| == 1 then {} else var k := Split(|xs|); NodeDigests(sha, xs[..k]) + NodeDigests(sha, xs[k..])
  }

  lemma {:induction false} FoldedHashIsNode(sha: Sha, h: string, steps: seq<ProofStep>, xs: seq<string>)
    requires IsSha(sha)
    requires |h| == 64 && xs != [] && AllEntryInputs(xs)
    requires Fold(sha, h, steps) == sha(RootInput(sha, xs))
    ensures h in NodeDigests(sha, xs) || Collision(sha, FoldInputs(sha, h, steps), TreeInputs(sha, xs))
    decreases |steps|
  {
    var rootInput := RootInput(sha, xs);
    RootInputTag(sha, xs);
    if steps != [] {
      var front, last := steps[..|steps| - 1], steps[|steps| - 1];
      var current := Fold(sha, h, front);
      var top := UpInput(current, last);
      assert top in FoldInputs(sha, h, steps) && rootInput in TreeInputs(sha, xs);
      if top == rootInput {
        var k := Split(|xs|);
        FoldKeepsLength(sha, h, front);
        var sibling := Clean(last.siblingHash);
        if last.isRight {
          PairInputSplits(current, sibling, sha(RootInput(sha, xs[..k])), sha(RootInput(sha, xs[k..])));
          FoldedHashIsNode(sha, h, front, xs[..k]);
        } else {
          PairInputSplits(sibling, current, sha(RootInput(sha, xs[..k])), sha(RootInput(sha, xs[k..])));
          FoldedHashIsNode(sha, h, front, xs[k..]);
        }
      }
    }
  }

  lemma {:induction false} FoldKeepsLength(sha: Sha, h: string, steps: seq<ProofStep>)
    requires IsSha(sha) && |h| == 64
    ensures |Fold(sha, h, steps)| == 64
  {
  }

  lemma {:induction false} NodeFolds(sha: Sha, h: string, xs: seq<string>) returns (steps: seq<ProofStep>)
    requires IsSha(sha) && xs != [] && h in NodeDigests(sha, xs)
    ensures Fold(sha, h, steps) == sha(RootInput(sha, xs))
    decreases |xs|
  {
    if h == sha(RootInput(sha, xs)) {
      steps := [];
    } else {
      var k := Split(|xs|);
      var left, right := sha(RootInput(sha, xs[..k])), sha(RootInput(sha, xs[k..]));
      DigestIsClean(left);
      DigestIsClean(right);
      if h in NodeDigests(sha, xs[..k]) {
        var below := NodeFolds(sha, h, xs[..k]);
        steps := below + [ProofStep(right, true)];
        assert steps[..|steps| - 1] == below;
      } else {
        var below := NodeFolds(sha, h, xs[k..]);
        steps := below + [ProofStep(left, false)];
        assert steps[..|steps| - 1] == below;
      }
    }
  }

  /** The hashes VerifyProof accepts against a root are the hashes of the tree's nodes, inner ones included: every
      node's hash is accepted with some proof, and a 64-character hash that is accepted is a node's, or two inputs
      hashed collide. */
  lemma AcceptedHashIsNode(sha: Sha, h: string, proof: Option<AuditProof>, xs: seq<string>)
    requires IsSha(sha)
    requires |Clean(h)| == 64 && xs != [] && AllEntryInputs(xs)
    requires Accepts(sha, h, proof, Mth(sha, Digests(sha, xs)))
    ensures Clean(h) in NodeDigests(sha, xs)
            || Collision(sha, FoldInputs(sha, Clean(h), proof.value.steps), TreeInputs(sha, xs))
  {
    RootInputHashesToRoot(sha, xs);
    DigestIsClean(sha(RootInput(sha, xs)));
    FoldedHashIsNode(sha, Clean(h), proof.value.steps, xs);
  }

  lemma NodeHashIsAccepted(sha: Sha, h: string, xs: seq<string>) returns (proof: AuditProof)
    requires IsSha(sha) && xs != [] && h in NodeDigests(sha, xs)
    ensures Accepts(sha, h, Some(proof), Mth(sha, Digests(sha, xs)))
  {
    RootInputHashesToRoot(sha, xs);
    NodeIsDigest(sha, h, xs);
    DigestIsClean(h);
    DigestIsClean(sha(RootInput(sha, xs)));
    var steps := NodeFolds(sha, h, xs);
    proof := AuditProof(h, sha(RootInput(sha, xs)), steps);
  }

  lemma {:induction false} NodeIsDigest(sha: Sha, h: string, xs: seq<string>)
    requires IsSha(sha) && xs != [] && h in NodeDigests(sha, xs)
    ensures IsDigest(h)
    decreases |xs|
  {
    if h != sha(RootInput(sha, xs)) {
      var k := Split(|xs|);
      if h in NodeDigests(sha, xs[..k]) {
        NodeIsDigest(sha, h, xs[..k]);
      } else {
        NodeIsDigest(sha, h, xs[k..]);
      }
    }
  }

  /** A root fixes the whole list of entries behind it, whatever the lengths. */
  lemma {:induction false} RootFixesEntries(sha: Sha, xs: seq<string>, ys: seq<string>)
    requires IsSha(sha)
    requires xs != [] && ys != [] && AllEntryInputs(xs) && AllEntryInputs(ys)
    requires Mth(sha, Digests(sha, xs)) == Mth(sha, Digests(sha, ys))
    ensures xs == ys || Collision(sha, TreeInputs(sha, xs), TreeInputs(sha, ys))
  {
    RootInputHashesToRoot(sha, xs);
    RootInputHashesToRoot(sha, ys);
    DigestFixesEntries(sha, xs, ys);
  }

  lemma {:induction false} DigestFixesEntries(sha: Sha, xs: seq<string>, ys: seq<string>)
    requires IsSha(sha)
    requires xs != [] && ys != [] && AllEntryInputs(xs) && AllEntryInputs(ys)
    requires sha(RootInput(sha, xs)) == sha(RootInput(sha, ys))
    ensures xs == ys || Collision(sha, TreeInputs(sha, xs), TreeInputs(sha, ys))
    decreases |xs|
  {
    var x, y := RootInput(sha, xs), RootInput(sha, ys);
    assert x in TreeInputs(sha, xs) && y in TreeInputs(sha, ys);
    RootInputTag(sha, xs);
    RootInputTag(sha, ys);
    if x == y && |xs| > 1 {
      var j, k := Split(|xs|), Split(|ys|);
      SplitPairInputs(sha, xs, ys, j, k);
      DigestFixesEntries(sha, xs[..j], ys[..k]);
      DigestFixesEntries(sha, xs[j..], ys[k..]);
      if xs[..j] == ys[..k] && xs[j..] == ys[k..] {
        assert xs == xs[..j] + xs[j..] && ys == ys[..k] + ys[k..];
      }
    }
  }

  lemma SplitPairInputs(sha: Sha, xs: seq<string>, ys: seq<string>, j: nat, k: nat)
    requires IsSha(sha)
    requires |xs| > 1 && |ys| > 1 && j == Split(|xs|) && k == Split(|ys|)
    requires RootInput(sha, xs) == RootInput(sha, ys)
    ensures sha(RootInput(sha, xs[..j])) == sha(RootInput(sha, ys[..k]))
    ensures sha(RootInput(sha, xs[j..])) == sha(RootInput(sha, ys[k..]))
  {
    PairInputSplits(sha(RootInput(sha, xs[..j])), sha(RootInput(sha, xs[j..])),
                    sha(RootInput(sha, ys[..k])), sha(RootInput(sha, ys[k..])));
  }
}
