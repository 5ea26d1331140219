/**
 The Merkle tree of `audit/merkle.py`: duplicate-last levels, audit paths, verification.

 The loops are methods; each is proved against the level functions below, and the results
 (path completeness, soundness of arbitrary proofs, what a root determines) are lemmas
 about those functions. The tree is built with a hash over domain-tagged inputs; Serial
 says which bytes those inputs are.
 */
module Merkle {
  import opened Bytes

  // ----- what is hashed --------------------------------------------------------------

  datatype Input = Leaf(record: Bytes) | Node(left: Bytes, right: Bytes)

  type Hash = h: Input -> Bytes | forall x :: |h(x)| == DIGEST_LEN
    witness (x: Input) => seq(DIGEST_LEN, i => 0)

  /** The domain prefix: one for leaves, one for nodes, of equal length. */
  function Domain(x: Input): (d: Bytes)
    ensures |d| == 19 && d[18] == if x.Leaf? then 0 else 1
  {
    Ascii(if x.Leaf? then "MCPIP:WORM:LEAF:v1" else "MCPIP:WORM:NODE:v1") + [if x.Leaf? then 0 else 1]
  }

  function Body(x: Input): Bytes {
    match x
    case Leaf(record) => record
    case Node(left, right) => left + right
  }

  /** The bytes handed to SHA-256 for a leaf or an internal node. */
  function Serial(x: Input): Bytes { Domain(x) + Body(x) }

  function Tagged(sha: Sha256): Hash {
    var h := (x: Input) => sha(Serial(x));
    assert forall x :: |h(x)| == DIGEST_LEN by {
      forall x ensures |h(x)| == DIGEST_LEN {
        var digest := sha(Serial(x));
      }
    }
    h
  }

  function LeafDigests(h: Hash, records: seq<Bytes>): (leaves: seq<Bytes>)
    ensures |leaves| == |records|
    ensures forall i :: 0 <= i < |records| ==> leaves[i] == h(Leaf(records[i]))
  {
    seq(|records|, i requires 0 <= i < |records| => h(Leaf(records[i])))
  }

  // ----- one level of the tree -----------------------------------------------------

  /** The level above; an odd last node is paired with itself. */
  function Parents(h: Hash, level: seq<Bytes>): (up: seq<Bytes>)
    ensures |up| == (|level| + 1) / 2
  {
    if level == [] then []
    else if |level| == 1 then [h(Node(level[0], level[0]))]
    else [h(Node(level[0], level[1]))] + Parents(h, level[2..])
  }

  /** The root over a non-empty level. */
  function Root(h: Hash, level: seq<Bytes>): Bytes
    requires level != []
    decreases |level|
  {
    if |level| == 1 then level[0] else Root(h, Parents(h, level))
  }

  /** The root over any list of leaf digests; the empty list has a fixed root. */
  function RootOf(h: Hash, leaves: seq<Bytes>): Bytes {
    if leaves == [] then h(Leaf([])) else Root(h, leaves)
  }

  datatype Side = L | R
  /** One path element: the side the sibling sits on, and the sibling. */
  datatype Step = Step(side: Side, sibling: Bytes)

  /** The sibling of position `index`; an odd last node is its own sibling. */
  function Sibling(level: seq<Bytes>, index: nat): Step
    requires index < |level|
  {
    if index % 2 == 1 then Step(L, level[index - 1])
    else Step(R, level[if index + 1 < |level| then index + 1 else index])
  }

  /** The audit path of position `index`, bottom up. */
  function Path(h: Hash, level: seq<Bytes>, index: nat): seq<Step>
    requires index < |level|
    decreases |level|
  {
    if |level| == 1 then [] else [Sibling(level, index)] + Path(h, Parents(h, level), index / 2)
  }

  function StepInput(digest: Bytes, step: Step): Input {
    if step.side == L then Node(step.sibling, digest) else Node(digest, step.sibling)
  }

  /** The digest reached from `digest` along the first `n` steps of `proof`. */
  function ClimbTo(h: Hash, digest: Bytes, proof: seq<Step>, n: nat): Bytes
    requires n <= |proof|
  {
    if n == 0 then digest else h(StepInput(ClimbTo(h, digest, proof, n - 1), proof[n - 1]))
  }

  function Climb(h: Hash, digest: Bytes, proof: seq<Step>): Bytes {
    ClimbTo(h, digest, proof, |proof|)
  }

  // ----- the loops -------------------------------------------------------------------

  /** Duplicating an odd last element first makes no difference to the level above. */
  lemma {:induction false} ParentsOfPadded(h: Hash, level: seq<Bytes>)
    requires |level| % 2 == 1
    ensures Parents(h, level + [level[|level| - 1]]) == Parents(h, level)
  {
    var padded := level + [level[|level| - 1]];
    if |level| > 1 {
      assert padded[2..] == level[2..] + [level[2..][|level| - 3]];
      ParentsOfPadded(h, level[2..]);
    }
  }

  /** The parent at `k` hashes the pair at `2k`. */
  lemma {:induction false} ParentsAt(h: Hash, level: seq<Bytes>, k: nat)
    requires 2 * k + 1 < |level|
    ensures Parents(h, level)[k] == h(Node(level[2 * k], level[2 * k + 1]))
  {
    if k > 0 {
      ParentsAt(h, level[2..], k - 1);
    }
  }

  /** One round of the loops: append the duplicate if needed, then hash pair by pair. */
  method NextLevel(h: Hash, level: seq<Bytes>) returns (up: seq<Bytes>)
    requires level != []
    ensures up == Parents(h, level)
  {
    var padded := level;
    if |padded| % 2 == 1 {
      padded := padded + [padded[|padded| - 1]];
      ParentsOfPadded(h, level);
    }
    up := [];
    var i := 0;
    while i < |padded|
      invariant i == 2 * |up| <= |padded|
      invariant up == Parents(h, padded)[..|up|]
    {
      ParentsAt(h, padded, |up|);
      up := up + [h(Node(padded[i], padded[i + 1]))];
      i := i + 2;
    }
  }

  method MerkleRoot(h: Hash, leaves: seq<Bytes>) returns (root: Bytes)
    ensures root == RootOf(h, leaves)
  {
    if leaves == [] {
      return h(Leaf([]));
    }
    var level := leaves;
    while |level| > 1
      invariant level != [] && Root(h, level) == RootOf(h, leaves)
      decreases |level|
    {
      level := NextLevel(h, level);
    }
    root := level[0];
  }

  method InclusionProof(h: Hash, leaves: seq<Bytes>, index: nat) returns (proof: seq<Step>)
    requires index < |leaves|
    ensures proof == Path(h, leaves, index)
  {
    proof := [];
    var idx: nat, level := index, leaves;
    while |level| > 1
      invariant idx < |level|
      invariant proof + Path(h, level, idx) == Path(h, leaves, index)
      decreases |level|
    {
      proof := proof + [Sibling(level, idx)];
      idx := idx / 2;
      level := NextLevel(h, level);
    }
  }

  method VerifyInclusion(h: Hash, leaf: Bytes, proof: seq<Step>, root: Bytes) returns (ok: bool)
    ensures ok <==> Climb(h, leaf, proof) == root
  {
    var digest := leaf;
    for i := 0 to |proof|
      invariant digest == ClimbTo(h, leaf, proof, i)
    {
      digest := if proof[i].side == L then h(Node(proof[i].sibling, digest)) else h(Node(digest, proof[i].sibling));
    }
    ok := digest == root;
  }

  // ----- completeness ------------------------------------------------------------------

  function Pow2(n: nat): (p: nat)
    ensures p >= 1
  {
    if n == 0 then 1 else 2 * Pow2(n - 1)
  }

  /** The number of levels above the leaves. */
  function Height(count: nat): (h: nat)
    requires count > 0
    decreases count
  {
    if count == 1 then 0 else 1 + Height((count + 1) / 2)
  }

  /** Height is ceil(log2 count): the least k with 2^k >= count. */
  lemma {:induction false} HeightIsCeilLog2(count: nat, k: nat)
    requires count > 0
    ensures Height(count) <= k <==> count <= Pow2(k)
    decreases count
  {
    if count > 1 && k > 0 {
      HeightIsCeilLog2((count + 1) / 2, k - 1);
    }
  }

  /** Climbing one step and then the rest is climbing the whole path. */
  lemma {:induction false} ClimbFront(h: Hash, digest: Bytes, first: Step, rest: seq<Step>, n: nat)
    requires n <= |rest|
    ensures ClimbTo(h, digest, [first] + rest, n + 1) == ClimbTo(h, h(StepInput(digest, first)), rest, n)
  {
    if n > 0 {
      ClimbFront(h, digest, first, rest, n - 1);
    } else {
      assert ClimbTo(h, digest, [first] + rest, 0) == digest;
    }
  }

  /** A node's parent is one step up from it. */
  lemma {:induction false} StepToParent(h: Hash, level: seq<Bytes>, index: nat)
    requires index < |level|
    ensures Parents(h, level)[index / 2] == h(StepInput(level[index], Sibling(level, index)))
  {
    var up := Parents(h, level);
    if index >= 2 {
      var rest := level[2..];
      StepToParent(h, rest, index - 2);
      assert up[index / 2] == Parents(h, rest)[index / 2 - 1] && (index - 2) / 2 == index / 2 - 1;
      assert Sibling(rest, index - 2) == Sibling(level, index);
    } else {
      assert up[index / 2] == up[0];
    }
  }

  /** The path generated for any position leads from that leaf to the root, in ceil(log2 n) steps. */
  lemma {:induction false} PathVerifies(h: Hash, leaves: seq<Bytes>, index: nat)
    requires index < |leaves|
    ensures Climb(h, leaves[index], Path(h, leaves, index)) == Root(h, leaves)
    ensures |Path(h, leaves, index)| == Height(|leaves|)
    decreases |leaves|
  {
    if |leaves| > 1 {
      var up := Parents(h, leaves);
      StepToParent(h, leaves, index);
      PathVerifies(h, up, index / 2);
      var rest := Path(h, up, index / 2);
      ClimbFront(h, leaves[index], Sibling(leaves, index), rest, |rest|);
    }
  }

  // ----- what was hashed ---------------------------------------------------------------

  function LeafInputs(records: seq<Bytes>): set<Input> {
    set i | 0 <= i < |records| :: Leaf(records[i])
  }

  /** The pair hashed into the parent at `k`. */
  function PairAt(level: seq<Bytes>, k: nat): Input
    requires 2 * k < |level|
  {
    Node(level[2 * k], level[if 2 * k + 1 < |level| then 2 * k + 1 else 2 * k])
  }

  function PairInputs(level: seq<Bytes>): set<Input> {
    set k | 0 <= k < |level| && 2 * k < |level| :: PairAt(level, k)
  }

  /** Every node input hashed above `level`. */
  function NodeInputs(h: Hash, level: seq<Bytes>): set<Input>
    requires level != []
    decreases |level|
  {
    if |level| == 1 then {} else PairInputs(level) + NodeInputs(h, Parents(h, level))
  }

  /** Everything hashed to compute the root over `records`. */
  function TreeInputs(h: Hash, records: seq<Bytes>): set<Input>
    requires records != []
  {
    LeafInputs(records) + NodeInputs(h, LeafDigests(h, records))
  }

  /** The input hashed last when climbing the first `n` steps from `record`. */
  function ProofInput(h: Hash, record: Bytes, proof: seq<Step>, n: nat): Input
    requires n <= |proof|
  {
    if n == 0 then Leaf(record) else StepInput(ClimbTo(h, h(Leaf(record)), proof, n - 1), proof[n - 1])
  }

  /** Everything hashed to climb `proof` from the digest of `record`. */
  function ProofInputs(h: Hash, record: Bytes, proof: seq<Step>): set<Input> {
    set n | 0 <= n <= |proof| :: ProofInput(h, record, proof, n)
  }

  // ----- levels by number --------------------------------------------------------------

  /** The level `k` steps above `level`. */
  function LevelAt(h: Hash, level: seq<Bytes>, k: nat): seq<Bytes> {
    if k == 0 then level else Parents(h, LevelAt(h, level, k - 1))
  }

  lemma {:induction false} LevelAtFront(h: Hash, level: seq<Bytes>, k: nat)
    ensures LevelAt(h, level, k + 1) == LevelAt(h, Parents(h, level), k)
  {
    if k > 0 {
      LevelAtFront(h, level, k - 1);
    }
  }

  /** A level is never empty, and at the top it is the root alone. */
  lemma {:induction false} LevelAtTop(h: Hash, level: seq<Bytes>, k: nat)
    requires level != [] && k <= Height(|level|)
    ensures LevelAt(h, level, k) != []
    ensures k < Height(|level|) ==> |LevelAt(h, level, k)| > 1
    ensures k == Height(|level|) ==> LevelAt(h, level, k) == [Root(h, level)]
    decreases |level|
  {
    if |level| > 1 && k > 0 {
      LevelAtTop(h, Parents(h, level), k - 1);
      LevelAtFront(h, level, k - 1);
    }
  }

  /** The parent at `k` hashes the pair at `k`, the odd last one included. */
  lemma {:induction false} ParentHashesPair(h: Hash, level: seq<Bytes>, k: nat)
    requires 2 * k < |level|
    ensures Parents(h, level)[k] == h(PairAt(level, k))
  {
    if k > 0 {
      ParentHashesPair(h, level[2..], k - 1);
    }
  }

  /** Every pair hashed at a numbered level is among the tree's inputs. */
  lemma {:induction false} PairIsTreeInput(h: Hash, level: seq<Bytes>, k: nat, j: nat)
    requires level != [] && k < Height(|level|)
    requires 2 * j < |LevelAt(h, level, k)|
    ensures PairAt(LevelAt(h, level, k), j) in NodeInputs(h, level)
    decreases |level|
  {
    if k == 0 {
      assert PairAt(level, j) in PairInputs(level);
    } else {
      LevelAtFront(h, level, k - 1);
      PairIsTreeInput(h, Parents(h, level), k - 1, j);
    }
  }

  /** A node above the leaves hashes a pair of the level below, and that pair was hashed. */
  lemma PairBelow(h: Hash, level: seq<Bytes>, k: nat, j: nat)
    requires level != [] && 0 < k <= Height(|level|)
    requires j < |LevelAt(h, level, k)|
    ensures 2 * j < |LevelAt(h, level, k - 1)|
    ensures LevelAt(h, level, k)[j] == h(PairAt(LevelAt(h, level, k - 1), j))
    ensures PairAt(LevelAt(h, level, k - 1), j) in NodeInputs(h, level)
  {
    ParentHashesPair(h, LevelAt(h, level, k - 1), j);
    PairIsTreeInput(h, level, k - 1, j);
  }

  // ----- soundness of arbitrary proofs ---------------------------------------------------

  /** The child of node `j` that a climb with the sibling on `side` came from, `count` nodes below. */
  function ChildIndex(count: nat, j: nat, side: Side): (c: nat)
    requires 2 * j < count
    ensures c < count
  {
    if side == R || 2 * j + 1 == count then 2 * j else 2 * j + 1
  }

  /** The number of nodes `k` levels above `count` leaves. */
  function Count(count: nat, k: nat): (n: nat) {
    if k == 0 then count else (Count(count, k - 1) + 1) / 2
  }

  lemma {:induction false} CountIsLevelLength(h: Hash, level: seq<Bytes>, k: nat)
    ensures |LevelAt(h, level, k)| == Count(|level|, k)
  {
    if k > 0 {
      CountIsLevelLength(h, level, k - 1);
    }
  }

  /** The leaf reached going down from node `j` of level `n` by the sides of the first `n` steps. */
  function Descend(count: nat, j: nat, proof: seq<Step>, n: nat): (leaf: nat)
    requires n <= |proof| && j < Count(count, n)
    ensures leaf < count
    decreases n
  {
    if n == 0 then j
    else Descend(count, ChildIndex(Count(count, n - 1), j, proof[n - 1].side), proof, n - 1)
  }

  /** The climb came from the child on the other side of the sibling. */
  lemma ChildReached(below: seq<Bytes>, j: nat, digest: Bytes, step: Step)
    requires 2 * j < |below| && PairAt(below, j) == StepInput(digest, step)
    ensures digest == below[ChildIndex(|below|, j, step.side)]
  {
  }

  /** A climb that reaches a digest hashed into the tree did so by hashing the same input. */
  lemma InputReached(h: Hash, mine: set<Input>, x: Input, record: Bytes, proof: seq<Step>, n: nat)
    requires x in mine && !Collide(h, mine, ProofInputs(h, record, proof))
    requires n <= |proof| && ClimbTo(h, h(Leaf(record)), proof, n) == h(x)
    ensures x == ProofInput(h, record, proof, n)
  {
    EqualDigests(h, mine, ProofInputs(h, record, proof), x, ProofInput(h, record, proof, n));
  }

  /** A climb that reaches an inner node reached one of its children a step earlier. */
  lemma {:induction false} StepDown(
    h: Hash, leaves: seq<Bytes>, mine: set<Input>, k: nat, j: nat, record: Bytes, proof: seq<Step>, n: nat)
    requires leaves != [] && 0 < k <= Height(|leaves|) && n <= |proof|
    requires NodeInputs(h, leaves) <= mine && !Collide(h, mine, ProofInputs(h, record, proof))
    requires j < |LevelAt(h, leaves, k)|
    requires ClimbTo(h, h(Leaf(record)), proof, n) == LevelAt(h, leaves, k)[j]
    ensures n > 0 && 2 * j < |LevelAt(h, leaves, k - 1)| == Count(|leaves|, k - 1)
    ensures ClimbTo(h, h(Leaf(record)), proof, n - 1)
      == LevelAt(h, leaves, k - 1)[ChildIndex(Count(|leaves|, k - 1), j, proof[n - 1].side)]
  {
    var below := LevelAt(h, leaves, k - 1);
    CountIsLevelLength(h, leaves, k - 1);
    PairBelow(h, leaves, k, j);
    InputReached(h, mine, PairAt(below, j), record, proof, n);
    assert n > 0;
    ChildReached(below, j, ClimbTo(h, h(Leaf(record)), proof, n - 1), proof[n - 1]);
  }

  ghost predicate HashedLeaf(h: Hash, digest: Bytes, mine: set<Input>) {
    exists r :: Leaf(r) in mine && digest == h(Leaf(r))
  }

  lemma LeavesAreHashed(h: Hash, records: seq<Bytes>)
    requires records != []
    ensures forall d :: d in LeafDigests(h, records) ==> HashedLeaf(h, d, TreeInputs(h, records))
  {
    forall d | d in LeafDigests(h, records)
      ensures HashedLeaf(h, d, TreeInputs(h, records))
    {
      var i :| 0 <= i < |records| && d == LeafDigests(h, records)[i];
      assert Leaf(records[i]) in LeafInputs(records);
    }
  }

  /** A leaf digest of the list is the digest of its own record only. */
  lemma DigestNamesRecord(h: Hash, records: seq<Bytes>, i: nat, record: Bytes, proof: seq<Step>)
    requires i < |records| && LeafDigests(h, records)[i] == h(Leaf(record))
    requires !Collide(h, TreeInputs(h, records), ProofInputs(h, record, proof))
    ensures records[i] == record
  {
    assert Leaf(records[i]) in LeafInputs(records);
    assert ProofInput(h, record, proof, 0) == Leaf(record);
    EqualDigests(h, TreeInputs(h, records), ProofInputs(h, record, proof), Leaf(records[i]), Leaf(record));
  }

  /** An arbitrary proof that climbs to a node of the tree started at the leaf it descends to. */
  lemma {:induction false} NodeSound(
    h: Hash, leaves: seq<Bytes>, mine: set<Input>, k: nat, j: nat, record: Bytes, proof: seq<Step>, n: nat)
    requires leaves != [] && k <= Height(|leaves|) && n <= |proof|
    requires forall d :: d in leaves ==> HashedLeaf(h, d, mine)
    requires NodeInputs(h, leaves) <= mine && !Collide(h, mine, ProofInputs(h, record, proof))
    requires j < |LevelAt(h, leaves, k)|
    requires ClimbTo(h, h(Leaf(record)), proof, n) == LevelAt(h, leaves, k)[j]
    ensures n == k && j < Count(|leaves|, n)
    ensures leaves[Descend(|leaves|, j, proof, n)] == h(Leaf(record))
    decreases n
  {
    CountIsLevelLength(h, leaves, k);
    if k == 0 {
      assert leaves[j] in leaves && HashedLeaf(h, leaves[j], mine);
      var r :| Leaf(r) in mine && leaves[j] == h(Leaf(r));
      InputReached(h, mine, Leaf(r), record, proof, n);
    } else {
      StepDown(h, leaves, mine, k, j, record, proof, n);
      NodeSound(h, leaves, mine, k - 1, ChildIndex(Count(|leaves|, k - 1), j, proof[n - 1].side), record, proof, n - 1);
    }
  }

  /**
   A proof of any length and shape that verifies against the root names the record at the
   position its sides spell, unless one of the inputs hashed while checking it collides with
   a different input hashed into the tree.
   */
  lemma {:induction false} ProofSound(h: Hash, records: seq<Bytes>, record: Bytes, proof: seq<Step>)
    requires records != []
    requires Climb(h, h(Leaf(record)), proof) == Root(h, LeafDigests(h, records))
    ensures Collide(h, TreeInputs(h, records), ProofInputs(h, record, proof))
         || (|proof| == Height(|records|) && Count(|records|, |proof|) == 1
             && records[Descend(|records|, 0, proof, |proof|)] == record)
  {
    var leaves, mine := LeafDigests(h, records), TreeInputs(h, records);
    if !Collide(h, mine, ProofInputs(h, record, proof)) {
      LeavesAreHashed(h, records);
      LevelAtTop(h, leaves, Height(|leaves|));
      NodeSound(h, leaves, mine, Height(|leaves|), 0, record, proof, |proof|);
      CountIsLevelLength(h, leaves, |proof|);
      DigestNamesRecord(h, records, Descend(|records|, 0, proof, |proof|), record, proof);
    }
  }

  /** The position `n` levels above position `index`. */
  function Ancestor(index: nat, n: nat): nat {
    if n == 0 then index else Ancestor(index, n - 1) / 2
  }

  lemma {:induction false} AncestorFront(index: nat, n: nat)
    ensures Ancestor(index, n + 1) == Ancestor(index / 2, n)
  {
    if n > 0 {
      AncestorFront(index, n - 1);
    }
  }

  lemma {:induction false} AncestorInLevel(count: nat, index: nat, n: nat)
    requires index < count
    ensures Ancestor(index, n) < Count(count, n)
  {
    if n > 0 {
      AncestorInLevel(count, index, n - 1);
    }
  }

  /** Which sibling a generated path names at each level. */
  lemma {:induction false} PathStep(h: Hash, level: seq<Bytes>, index: nat, n: nat)
    requires index < |level| && n < |Path(h, level, index)|
    ensures Ancestor(index, n) < |LevelAt(h, level, n)|
    ensures Path(h, level, index)[n] == Sibling(LevelAt(h, level, n), Ancestor(index, n))
    decreases |level|
  {
    AncestorInLevel(|level|, index, n);
    CountIsLevelLength(h, level, n);
    if n > 0 {
      PathStep(h, Parents(h, level), index / 2, n - 1);
      LevelAtFront(h, level, n - 1);
      AncestorFront(index, n - 1);
    }
  }

  /** The sides of a generated path lead back down to the position it was generated for. */
  lemma {:induction false} PathDescends(h: Hash, level: seq<Bytes>, index: nat, n: nat)
    requires index < |level| && n <= |Path(h, level, index)|
    ensures Ancestor(index, n) < Count(|level|, n)
    ensures Descend(|level|, Ancestor(index, n), Path(h, level, index), n) == index
    decreases n
  {
    AncestorInLevel(|level|, index, n);
    if n > 0 {
      PathStep(h, level, index, n - 1);
      PathDescends(h, level, index, n - 1);
    }
  }

  // ----- what a root determines ----------------------------------------------------------

  /** Which element fills position `i` of the complete tree over `count` leaves. */
  function Filler(count: nat, i: nat): (leaf: nat)
    requires 0 < count && i < Pow2(Height(count))
    ensures leaf < count
    ensures i < count ==> leaf == i
    decreases count
  {
    if count == 1 then 0
    else
      var j := Filler((count + 1) / 2, i / 2);
      if 2 * j + i % 2 < count then 2 * j + i % 2 else 2 * j
  }

  /** The list as the duplicate-last rule completes it: 2^height elements. */
  function Completed<T>(list: seq<T>): (full: seq<T>)
    requires list != []
    ensures |full| == Pow2(Height(|list|))
  {
    seq(Pow2(Height(|list|)), i requires 0 <= i < Pow2(Height(|list|)) => list[Filler(|list|, i)])
  }

  lemma FillerOfPair(count: nat, j: nat)
    requires count > 1 && j < Pow2(Height((count + 1) / 2))
    ensures var k := Filler((count + 1) / 2, j);
      && 2 * j + 1 < Pow2(Height(count)) && 2 * k < count
      && Filler(count, 2 * j) == 2 * k
      && Filler(count, 2 * j + 1) == if 2 * k + 1 < count then 2 * k + 1 else 2 * k
  {
    assert (2 * j) / 2 == j && (2 * j + 1) / 2 == j && (2 * j) % 2 == 0 && (2 * j + 1) % 2 == 1;
  }

  /** The parents of a completed level are the completed parents. */
  lemma {:induction false} CompletedParents(h: Hash, level: seq<Bytes>, j: nat)
    requires |level| > 1 && j < Pow2(Height((|level| + 1) / 2))
    ensures Completed(Parents(h, level))[j] == h(Node(Completed(level)[2 * j], Completed(level)[2 * j + 1]))
    ensures Node(Completed(level)[2 * j], Completed(level)[2 * j + 1]) in PairInputs(level)
  {
    CompletedPair(level, j);
    CompletedParent(h, level, j);
  }

  lemma CompletedParent(h: Hash, level: seq<Bytes>, j: nat)
    requires |level| > 1 && j < Pow2(Height((|level| + 1) / 2))
    ensures 2 * Filler((|level| + 1) / 2, j) < |level|
    ensures Completed(Parents(h, level))[j] == h(PairAt(level, Filler((|level| + 1) / 2, j)))
    ensures PairAt(level, Filler((|level| + 1) / 2, j)) in PairInputs(level)
  {
    var k := Filler((|level| + 1) / 2, j);
    assert 2 * k < |level|;
    ParentHashesPair(h, level, k);
  }

  /** The completed level holds the pair its parent was hashed from. */
  lemma {:induction false} CompletedPair(level: seq<Bytes>, j: nat)
    requires |level| > 1 && j < Pow2(Height((|level| + 1) / 2))
    ensures 2 * j + 1 < |Completed(level)| && 2 * Filler((|level| + 1) / 2, j) < |level|
    ensures Node(Completed(level)[2 * j], Completed(level)[2 * j + 1]) == PairAt(level, Filler((|level| + 1) / 2, j))
  {
    FillerOfPair(|level|, j);
  }

  lemma {:induction false} CompletedNodes(h: Hash, a: seq<Bytes>, b: seq<Bytes>, j: nat)
    requires |a| > 1 && |b| > 1 && Height(|a|) == Height(|b|) && j < |Completed(Parents(h, a))|
    requires !Collide(h, PairInputs(a), PairInputs(b))
    ensures Completed(Parents(h, a))[j] == Completed(Parents(h, b))[j]
       <==> Completed(a)[2 * j] == Completed(b)[2 * j] && Completed(a)[2 * j + 1] == Completed(b)[2 * j + 1]
  {
    CompletedParents(h, a, j);
    CompletedParents(h, b, j);
    var x, y := Node(Completed(a)[2 * j], Completed(a)[2 * j + 1]), Node(Completed(b)[2 * j], Completed(b)[2 * j + 1]);
    if h(x) == h(y) {
      EqualDigests(h, PairInputs(a), PairInputs(b), x, y);
    }
  }

  /** Two levels whose completions agree have the same parents' completion, and conversely unless hashes collide. */
  lemma {:induction false} CompletedLift(h: Hash, a: seq<Bytes>, b: seq<Bytes>)
    requires |a| > 1 && |b| > 1 && Height(|a|) == Height(|b|)
    requires !Collide(h, PairInputs(a), PairInputs(b))
    ensures Completed(Parents(h, a)) == Completed(Parents(h, b)) <==> Completed(a) == Completed(b)
  {
    var ca, cb, pa, pb := Completed(a), Completed(b), Completed(Parents(h, a)), Completed(Parents(h, b));
    forall j | 0 <= j < |pa|
      ensures pa[j] == pb[j] <==> ca[2 * j] == cb[2 * j] && ca[2 * j + 1] == cb[2 * j + 1]
    {
      CompletedNodes(h, a, b, j);
    }
    EqualByPairs(ca, cb, pa, pb);
  }

  /** Sequences whose elements are equal pair by pair exactly as two others are, are equal exactly as those are. */
  lemma EqualByPairs(x: seq<Bytes>, y: seq<Bytes>, px: seq<Bytes>, py: seq<Bytes>)
    requires |x| == |y| == 2 * |px| && |px| == |py|
    requires forall j :: 0 <= j < |px| ==> (px[j] == py[j] <==> x[2 * j] == y[2 * j] && x[2 * j + 1] == y[2 * j + 1])
    ensures px == py <==> x == y
  {
    if px == py {
      forall i | 0 <= i < |x|
        ensures x[i] == y[i]
      {
        assert px[i / 2] == py[i / 2];
        assert i == 2 * (i / 2) || i == 2 * (i / 2) + 1;
      }
    }
  }

  /** Levels of equal height have the same root iff their completions agree. */
  lemma {:induction false} RootIffCompleted(h: Hash, a: seq<Bytes>, b: seq<Bytes>)
    requires a != [] && b != [] && Height(|a|) == Height(|b|)
    requires !Collide(h, NodeInputs(h, a), NodeInputs(h, b))
    ensures Root(h, a) == Root(h, b) <==> Completed(a) == Completed(b)
    decreases |a|
  {
    if |a| == 1 {
      assert |b| == 1;
      assert Completed(a)[0] == a[0] && Completed(b)[0] == b[0];
    } else {
      var pa, pb := Parents(h, a), Parents(h, b);
      NoCollideWithin(h, PairInputs(a), PairInputs(b), NodeInputs(h, a), NodeInputs(h, b));
      NoCollideWithin(h, NodeInputs(h, pa), NodeInputs(h, pb), NodeInputs(h, a), NodeInputs(h, b));
      RootIffCompleted(h, pa, pb);
      CompletedLift(h, a, b);
    }
  }

  lemma LeafIsNotNode(h: Hash, digest: Bytes, node: Input, mine: set<Input>, theirs: set<Input>)
    requires HashedLeaf(h, digest, mine) && node.Node? && node in theirs && !Collide(h, mine, theirs)
    ensures digest != h(node)
  {
    var r :| Leaf(r) in mine && digest == h(Leaf(r));
    if digest == h(node) {
      EqualDigests(h, mine, theirs, Leaf(r), node);
    }
  }

  /** Level `ka` of one tree and level `kb` of another start with different digests. */
  predicate Apart(h: Hash, a: seq<Bytes>, ka: nat, b: seq<Bytes>, kb: nat) {
    LevelAt(h, a, ka) != [] && LevelAt(h, b, kb) != [] ==> LevelAt(h, a, ka)[0] != LevelAt(h, b, kb)[0]
  }

  /** Inner nodes of two trees differ when their first children do. */
  lemma {:induction false} ParentsApart(
    h: Hash, a: seq<Bytes>, b: seq<Bytes>, mine: set<Input>, theirs: set<Input>, ka: nat, kb: nat)
    requires a != [] && b != [] && 0 < ka <= Height(|a|) && 0 < kb <= Height(|b|)
    requires NodeInputs(h, a) <= mine && NodeInputs(h, b) <= theirs && !Collide(h, mine, theirs)
    requires Apart(h, a, ka - 1, b, kb - 1)
    ensures Apart(h, a, ka, b, kb)
  {
    if LevelAt(h, a, ka) != [] && LevelAt(h, b, kb) != [] {
      PairBelow(h, a, ka, 0);
      PairBelow(h, b, kb, 0);
      var x, y := PairAt(LevelAt(h, a, ka - 1), 0), PairAt(LevelAt(h, b, kb - 1), 0);
      assert x != y;
      if h(x) == h(y) {
        EqualDigests(h, mine, theirs, x, y);
      }
    }
  }

  /** A leaf digest of one tree never equals an inner node of another. */
  lemma {:induction false} LeavesApart(
    h: Hash, a: seq<Bytes>, b: seq<Bytes>, mine: set<Input>, theirs: set<Input>, kb: nat)
    requires b != [] && 0 < kb <= Height(|b|)
    requires NodeInputs(h, b) <= theirs && !Collide(h, mine, theirs)
    requires forall d :: d in a ==> HashedLeaf(h, d, mine)
    ensures Apart(h, a, 0, b, kb)
  {
    if a != [] && LevelAt(h, b, kb) != [] {
      PairBelow(h, b, kb, 0);
      assert a[0] in a;
      LeafIsNotNode(h, a[0], PairAt(LevelAt(h, b, kb - 1), 0), mine, theirs);
    }
  }

  /** The first node of a level never equals one nearer the leaves of another tree. */
  lemma {:induction false} HeightsApart(
    h: Hash, a: seq<Bytes>, b: seq<Bytes>, mine: set<Input>, theirs: set<Input>, ka: nat, kb: nat)
    requires a != [] && b != [] && ka < kb && ka <= Height(|a|) && kb <= Height(|b|)
    requires NodeInputs(h, a) <= mine && NodeInputs(h, b) <= theirs && !Collide(h, mine, theirs)
    requires forall d :: d in a ==> HashedLeaf(h, d, mine)
    ensures Apart(h, a, ka, b, kb)
    decreases ka
  {
    if ka == 0 {
      LeavesApart(h, a, b, mine, theirs, kb);
    } else {
      HeightsApart(h, a, b, mine, theirs, ka - 1, kb - 1);
      ParentsApart(h, a, b, mine, theirs, ka, kb);
    }
  }

  lemma RootsOfDifferentHeights(h: Hash, a: seq<Bytes>, b: seq<Bytes>)
    requires a != [] && b != [] && Height(|a|) < Height(|b|)
    requires !Collide(h, TreeInputs(h, a), TreeInputs(h, b))
    ensures Root(h, LeafDigests(h, a)) != Root(h, LeafDigests(h, b))
  {
    var la, lb := LeafDigests(h, a), LeafDigests(h, b);
    LeavesAreHashed(h, a);
    LevelAtTop(h, la, Height(|a|));
    LevelAtTop(h, lb, Height(|b|));
    HeightsApart(h, la, lb, TreeInputs(h, a), TreeInputs(h, b), Height(|a|), Height(|b|));
  }

  lemma {:induction false} CompletedDigests(h: Hash, a: seq<Bytes>, b: seq<Bytes>)
    requires a != [] && b != [] && Height(|a|) == Height(|b|)
    requires !Collide(h, LeafInputs(a), LeafInputs(b))
    ensures Completed(LeafDigests(h, a)) == Completed(LeafDigests(h, b)) <==> Completed(a) == Completed(b)
  {
    var da, db, ca, cb := Completed(LeafDigests(h, a)), Completed(LeafDigests(h, b)), Completed(a), Completed(b);
    forall i | 0 <= i < |ca|
      ensures da[i] == db[i] <==> ca[i] == cb[i]
    {
      var x, y := Leaf(ca[i]), Leaf(cb[i]);
      assert da[i] == h(x) && db[i] == h(y) && x in LeafInputs(a) && y in LeafInputs(b);
      if da[i] == db[i] {
        EqualDigests(h, LeafInputs(a), LeafInputs(b), x, y);
      }
    }
  }

  /** The list the tree is built over: the fixed root of an empty epoch is the root over one empty record. */
  function Effective(records: seq<Bytes>): (list: seq<Bytes>)
    ensures list != []
  {
    if records == [] then [[]] else records
  }

  lemma EmptyRootIsOneEmptyRecord(h: Hash, records: seq<Bytes>)
    ensures RootOf(h, LeafDigests(h, records)) == Root(h, LeafDigests(h, Effective(records)))
  {
    if records == [] {
      assert LeafDigests(h, [[]])[0] == h(Leaf([]));
    }
  }

  lemma CollideSymmetric(h: Hash, mine: set<Input>, theirs: set<Input>)
    ensures Collide(h, mine, theirs) <==> Collide(h, theirs, mine)
  {
    if Collide(h, mine, theirs) {
      var x, y :| x in mine && y in theirs && Clash(h, x, y);
      Collides(h, theirs, mine, y, x);
    }
    if Collide(h, theirs, mine) {
      var x, y :| x in theirs && y in mine && Clash(h, x, y);
      Collides(h, mine, theirs, y, x);
    }
  }

  /**
   Exactly what a root determines. Two record lists have the same root iff the duplicate-last
   rule completes them to the same list of 2^height records, unless an input hashed for one
   collides with a different input hashed for the other.
   */
  lemma {:induction false} RootDetermines(h: Hash, records: seq<Bytes>, records': seq<Bytes>)
    ensures var a, b := Effective(records), Effective(records');
      Collide(h, TreeInputs(h, a), TreeInputs(h, b))
      || (RootOf(h, LeafDigests(h, records)) == RootOf(h, LeafDigests(h, records'))
          <==> Completed(a) == Completed(b))
  {
    var a, b := Effective(records), Effective(records');
    EmptyRootIsOneEmptyRecord(h, records);
    EmptyRootIsOneEmptyRecord(h, records');
    var mine, theirs := TreeInputs(h, a), TreeInputs(h, b);
    if !Collide(h, mine, theirs) {
      if Height(|a|) < Height(|b|) {
        RootsOfDifferentHeights(h, a, b);
        Pow2Increases(Height(|a|), Height(|b|));
      } else if Height(|b|) < Height(|a|) {
        CollideSymmetric(h, mine, theirs);
        RootsOfDifferentHeights(h, b, a);
        Pow2Increases(Height(|b|), Height(|a|));
      } else {
        SameHeightRoots(h, a, b);
      }
    }
  }

  lemma {:induction false} Pow2Increases(m: nat, n: nat)
    requires m < n
    ensures Pow2(m) < Pow2(n)
  {
    if m + 1 < n {
      Pow2Increases(m, n - 1);
    }
  }

  lemma {:induction false} SameHeightRoots(h: Hash, a: seq<Bytes>, b: seq<Bytes>)
    requires a != [] && b != [] && Height(|a|) == Height(|b|)
    requires !Collide(h, TreeInputs(h, a), TreeInputs(h, b))
    ensures Root(h, LeafDigests(h, a)) == Root(h, LeafDigests(h, b)) <==> Completed(a) == Completed(b)
  {
    var la, lb := LeafDigests(h, a), LeafDigests(h, b);
    var mine, theirs := TreeInputs(h, a), TreeInputs(h, b);
    NoCollideWithin(h, NodeInputs(h, la), NodeInputs(h, lb), mine, theirs);
    NoCollideWithin(h, LeafInputs(a), LeafInputs(b), mine, theirs);
    RootIffCompleted(h, la, lb);
    CompletedDigests(h, a, b);
  }

  /** Lists of equal length with equal completions are equal, so the signed leaf count closes the gap. */
  lemma {:induction false} CountAndRootDetermine(h: Hash, records: seq<Bytes>, records': seq<Bytes>)
    requires |records| == |records'|
    requires RootOf(h, LeafDigests(h, records)) == RootOf(h, LeafDigests(h, records'))
    ensures records == records'
      || Collide(h, TreeInputs(h, Effective(records)), TreeInputs(h, Effective(records')))
  {
    if records != [] {
      RootDetermines(h, records, records');
      if Completed(records) == Completed(records') {
        assert |records| <= |Completed(records)| by { HeightIsCeilLog2(|records|, Height(|records|)); }
        forall i | 0 <= i < |records|
          ensures records[i] == records'[i]
        {
          assert Completed(records)[i] == records[i] && Completed(records')[i] == records'[i];
        }
      }
    }
  }

  /** Without the count it does not: repeating the last record of an odd list changes nothing. */
  lemma RepeatedLastRecordSharesRoot(h: Hash, records: seq<Bytes>)
    requires |records| % 2 == 1 && |records| > 1
    ensures RootOf(h, LeafDigests(h, records + [records[|records| - 1]])) == RootOf(h, LeafDigests(h, records))
  {
    var leaves := LeafDigests(h, records);
    assert LeafDigests(h, records + [records[|records| - 1]]) == leaves + [leaves[|leaves| - 1]];
    ParentsOfPadded(h, leaves);
  }

  // ----- down to the bytes -----------------------------------------------------------------

  /** Both children have digest length. */
  predicate FullSized(x: Input) {
    x.Node? ==> |x.left| == DIGEST_LEN && |x.right| == DIGEST_LEN
  }

  /** At least one child has digest length; a proof may carry a sibling of any length. */
  predicate HalfSized(x: Input) {
    x.Node? ==> |x.left| == DIGEST_LEN || |x.right| == DIGEST_LEN
  }

  /** Different inputs are different bytes: the domains never meet, and 32-byte halves split uniquely. */
  lemma SerialInjective(x: Input, y: Input)
    requires FullSized(x) && HalfSized(y) && Serial(x) == Serial(y)
    ensures x == y
  {
    ConcatSplit(Domain(x), Body(x), Domain(y), Body(y));
    assert x.Leaf? <==> y.Leaf?;
    if x.Node? {
      assert |x.left| + |x.right| == |y.left| + |y.right|;
      ConcatSplit(x.left, x.right, y.left, y.right);
    }
  }

  lemma {:induction false} ParentsFullSized(h: Hash, level: seq<Bytes>)
    ensures forall d :: d in Parents(h, level) ==> |d| == DIGEST_LEN
  {
    if |level| > 1 {
      ParentsFullSized(h, level[2..]);
    }
  }

  lemma {:induction false} NodeInputsFullSized(h: Hash, level: seq<Bytes>)
    requires level != [] && forall d :: d in level ==> |d| == DIGEST_LEN
    ensures forall x :: x in NodeInputs(h, level) ==> FullSized(x)
    decreases |level|
  {
    if |level| > 1 {
      ParentsFullSized(h, level);
      NodeInputsFullSized(h, Parents(h, level));
    }
  }

  function SerialAll(inputs: set<Input>): set<Bytes> {
    set x | x in inputs :: Serial(x)
  }

  lemma SerialCollision(sha: Sha256, x: Input, y: Input)
    requires FullSized(x) && HalfSized(y) && x != y && Tagged(sha)(x) == Tagged(sha)(y)
    ensures Serial(x) != Serial(y) && sha(Serial(x)) == sha(Serial(y))
  {
    if Serial(x) == Serial(y) {
      SerialInjective(x, y);
    }
  }

  lemma {:induction false} CollideSerial(sha: Sha256, mine: set<Input>, theirs: set<Input>)
    requires Collide(Tagged(sha), mine, theirs)
    requires forall x :: x in mine ==> FullSized(x)
    requires forall y :: y in theirs ==> HalfSized(y)
    ensures Collide(sha, SerialAll(mine), SerialAll(theirs))
  {
    var x, y :| x in mine && y in theirs && Clash(Tagged(sha), x, y);
    SerialCollision(sha, x, y);
    SerialMember(mine, x);
    SerialMember(theirs, y);
    Collides(sha, SerialAll(mine), SerialAll(theirs), Serial(x), Serial(y));
  }

  lemma SerialMember(inputs: set<Input>, x: Input)
    requires x in inputs
    ensures Serial(x) in SerialAll(inputs)
  {
  }

  lemma ProofInputHalfSized(h: Hash, record: Bytes, proof: seq<Step>, n: nat)
    requires n <= |proof|
    ensures HalfSized(ProofInput(h, record, proof, n))
  {
  }

  /** A collision between a tree and a proof is a SHA-256 collision between two different byte strings. */
  lemma CollisionInBytes(sha: Sha256, records: seq<Bytes>, record: Bytes, proof: seq<Step>)
    requires records != []
    requires Collide(Tagged(sha), TreeInputs(Tagged(sha), records), ProofInputs(Tagged(sha), record, proof))
    ensures Collide(sha, SerialAll(TreeInputs(Tagged(sha), records)),
                    SerialAll(ProofInputs(Tagged(sha), record, proof)))
  {
    var h := Tagged(sha);
    NodeInputsFullSized(h, LeafDigests(h, records));
    forall y | y in ProofInputs(h, record, proof)
      ensures HalfSized(y)
    {
      var n :| 0 <= n <= |proof| && y == ProofInput(h, record, proof, n);
      ProofInputHalfSized(h, record, proof, n);
    }
    CollideSerial(sha, TreeInputs(h, records), ProofInputs(h, record, proof));
  }
}
