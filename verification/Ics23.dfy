/**
 * ibc/store/proofs_ics23.go: proofs of the sparse Merkle tree as ICS-23 inner steps. The hash is
 * an arbitrary function; no property of it is used beyond those a lemma names.
 */
module Ics23 {
  import opened Common

  type Byte = x: int | 0 <= x < 256
  type Bytes = seq<Byte>
  type Hash = Bytes -> Bytes

  const HASH_SIZE := 32
  const LEAF_PREFIX: Bytes := [0]
  const INNER_PREFIX: Bytes := [1]
  const MIN_PREFIX_LENGTH := 1
  const MAX_PREFIX_LENGTH := 1

  /** Digest of an empty subtree, and default value of an absent key. */
  function Placeholder(): (r: Bytes)
    ensures |r| == HASH_SIZE
  {
    seq(HASH_SIZE, _ => 0)
  }

  // ---------------------------------------------------------------- the tree

  datatype Tree =
    | Empty
    | Leaf(path: Bytes, value: Bytes)
    | Inner(left: Tree, right: Tree)

  function LeafData(path: Bytes, value: Bytes): Bytes {
    LEAF_PREFIX + path + value
  }

  function Digest(hash: Hash, t: Tree): Bytes {
    match t
    case Empty => Placeholder()
    case Leaf(path, value) => hash(LeafData(path, value))
    case Inner(l, r) => hash(INNER_PREFIX + Digest(hash, l) + Digest(hash, r))
  }

  ghost predicate Sized(hash: Hash) {
    forall x {:trigger hash(x)} :: |hash(x)| == HASH_SIZE
  }

  lemma DigestSize(hash: Hash, t: Tree)
    requires Sized(hash)
    ensures |Digest(hash, t)| == HASH_SIZE
  {
    match t
    case Empty =>
    case Leaf(path, value) => assert |hash(LeafData(path, value))| == HASH_SIZE;
    case Inner(l, r) => assert |hash(INNER_PREFIX + Digest(hash, l) + Digest(hash, r))| == HASH_SIZE;
  }

  function Depth(t: Tree): nat {
    if t.Inner? then 1 + (if Depth(t.left) > Depth(t.right) then Depth(t.left) else Depth(t.right)) else 0
  }

  ghost predicate Contains(t: Tree, path: Bytes, value: Bytes) {
    match t
    case Empty => false
    case Leaf(p, v) => p == path && v == value
    case Inner(l, r) => Contains(l, path, value) || Contains(r, path, value)
  }

  predicate PathsSized(t: Tree) {
    (t.Leaf? ==> |t.path| == HASH_SIZE) && (t.Inner? ==> PathsSized(t.left) && PathsSized(t.right))
  }

  function Shifted(b: Byte, k: nat): nat {
    if k == 0 then b else Shifted(b / 2, k - 1)
  }

  /** The i-th bit of a path, from the most significant one, is 0. */
  predicate IsLeft(path: Bytes, i: nat)
    requires i < 8 * |path|
  {
    Shifted(path[i / 8], 7 - i % 8) % 2 == 0
  }

  /** Every leaf sits where the bits of its path lead. */
  ghost predicate WellPlaced(t: Tree, depth: nat) {
    t.Inner? ==>
      && WellPlaced(t.left, depth + 1) && WellPlaced(t.right, depth + 1)
      && (forall p, v :: Contains(t.left, p, v) ==> depth < 8 * |p| && IsLeft(p, depth))
      && (forall p, v :: Contains(t.right, p, v) ==> depth < 8 * |p| && !IsLeft(p, depth))
  }

  // ---------------------------------------------------------------- the order of leaves

  /** Byte strings of one length in the order of their first difference. */
  ghost predicate BytesLess(p: Bytes, q: Bytes) {
    |p| == |q| && exists i :: 0 <= i < |p| && FirstLess(p, q, i)
  }

  predicate FirstLess(p: Bytes, q: Bytes, i: nat)
    requires i < |p| == |q|
  {
    p[i] < q[i] && forall j :: 0 <= j < i ==> p[j] == q[j]
  }

  lemma {:induction false} ShiftedHalves(b: Byte, k: nat)
    ensures Shifted(b, k + 1) == Shifted(b, k) / 2
  {
    if k > 0 { ShiftedHalves(b / 2, k - 1); }
  }

  lemma ByteOrder(x: Byte, y: Byte, k: nat)
    requires k < 8 && Shifted(x, k + 1) == Shifted(y, k + 1) && Shifted(x, k) % 2 == 0 && Shifted(y, k) % 2 == 1
    ensures x < y
  {
    ShiftedHalves(x, k);
    ShiftedHalves(y, k);
    assert Shifted(x, k) < Shifted(y, k);
    if y <= x { ShiftedMonotone(y, x, k); }
  }

  lemma {:induction false} ShiftedMonotone(x: Byte, y: Byte, k: nat)
    requires x <= y
    ensures Shifted(x, k) <= Shifted(y, k)
    decreases k
  {
    if k > 0 { ShiftedMonotone(x / 2, y / 2, k - 1); }
  }

  lemma ShiftedOut(x: Byte)
    ensures Shifted(x, 8) == 0
  {
    var x4 := x / 2 / 2 / 2 / 2;
    assert x4 < 16;
    assert Shifted(x4, 4) == Shifted(x4 / 2, 3) == Shifted(x4 / 2 / 2, 2) == Shifted(x4 / 2 / 2 / 2, 1) == x4 / 2 / 2 / 2 / 2;
    assert Shifted(x, 8) == Shifted(x / 2, 7) == Shifted(x / 2 / 2, 6) == Shifted(x / 2 / 2 / 2, 5) == Shifted(x4, 4);
  }

  /** The paths take the same turns above `depth`. */
  ghost predicate SameTurns(p: Bytes, q: Bytes, depth: nat) {
    |p| == |q| && depth <= 8 * |p| && forall i :: 0 <= i < depth ==> (IsLeft(p, i) <==> IsLeft(q, i))
  }

  /** The leading bits of one byte are the same after the same turns. */
  lemma {:induction false} SameLeadingBits(p: Bytes, q: Bytes, depth: nat, b: nat, r: nat)
    requires SameTurns(p, q, depth) && b < |p| && r <= 8 && 8 * b + r <= depth
    ensures Shifted(p[b], 8 - r) == Shifted(q[b], 8 - r)
    decreases r
  {
    if r == 0 {
      ShiftedOut(p[b]);
      ShiftedOut(q[b]);
    } else {
      SameLeadingBits(p, q, depth, b, r - 1);
      var i := 8 * b + r - 1;
      assert i / 8 == b && i % 8 == r - 1;
      assert IsLeft(p, i) <==> IsLeft(q, i);
      ShiftedHalves(p[b], 8 - r);
      ShiftedHalves(q[b], 8 - r);
    }
  }

  /** Where two paths part, the one to the left is the smaller string of bytes. */
  lemma PartingOrder(p: Bytes, q: Bytes, depth: nat)
    requires depth < 8 * |p| && SameTurns(p, q, depth) && IsLeft(p, depth) && !IsLeft(q, depth)
    ensures BytesLess(p, q)
  {
    var b, r := depth / 8, depth % 8;
    SameLeadingBits(p, q, depth, b, r);
    ByteOrder(p[b], q[b], 7 - r);
    forall j | 0 <= j < b ensures p[j] == q[j] {
      SameLeadingBits(p, q, depth, j, 8);
    }
    assert FirstLess(p, q, b);
  }

  /** The paths of the leaves from left to right. */
  function LeafPaths(t: Tree): seq<Bytes> {
    match t
    case Empty => []
    case Leaf(path, _) => [path]
    case Inner(l, r) => LeafPaths(l) + LeafPaths(r)
  }

  lemma {:induction false} LeafIsContained(t: Tree, i: nat) returns (value: Bytes)
    requires i < |LeafPaths(t)|
    ensures Contains(t, LeafPaths(t)[i], value)
  {
    match t
    case Leaf(_, v) => value := v;
    case Inner(l, r) =>
      if i < |LeafPaths(l)| {
        value := LeafIsContained(l, i);
      } else {
        value := LeafIsContained(r, i - |LeafPaths(l)|);
      }
  }

  ghost predicate TogetherAbove(paths: seq<Bytes>, depth: nat) {
    forall i, j :: 0 <= i < |paths| && 0 <= j < |paths| ==> SameTurns(paths[i], paths[j], depth)
  }

  ghost predicate AscendingPaths(paths: seq<Bytes>) {
    forall i, j :: 0 <= i < j < |paths| ==> BytesLess(paths[i], paths[j])
  }

  lemma LeafTurn(t: Tree, depth: nat, i: nat)
    requires t.Inner? && WellPlaced(t, depth) && i < |LeafPaths(t)|
    ensures var p := LeafPaths(t)[i]; depth < 8 * |p| && (IsLeft(p, depth) <==> i < |LeafPaths(t.left)|)
  {
    hide IsLeft;
    if i < |LeafPaths(t.left)| {
      var v := LeafIsContained(t.left, i);
    } else {
      var v := LeafIsContained(t.right, i - |LeafPaths(t.left)|);
    }
  }

  lemma SameTurnFurther(p: Bytes, q: Bytes, depth: nat)
    requires SameTurns(p, q, depth) && depth < 8 * |p| && (IsLeft(p, depth) <==> IsLeft(q, depth))
    ensures SameTurns(p, q, depth + 1)
  {
  }

  /** In a well-placed tree the leaves from left to right are in ascending order of their paths. */
  lemma {:induction false} LeavesAscend(t: Tree, depth: nat)
    requires WellPlaced(t, depth) && TogetherAbove(LeafPaths(t), depth)
    ensures AscendingPaths(LeafPaths(t))
    decreases t
  {
    hide IsLeft, SameTurns, BytesLess, WellPlaced;
    if t.Inner? {
      var all, n := LeafPaths(t), |LeafPaths(t.left)|;
      PlacedBelow(t, depth);
      forall i, j | 0 <= i < |all| && 0 <= j < |all| && (i < n <==> j < n) ensures SameTurns(all[i], all[j], depth + 1) {
        LeafTurn(t, depth, i);
        LeafTurn(t, depth, j);
        SameTurnFurther(all[i], all[j], depth);
      }
      assert forall i :: 0 <= i < n ==> LeafPaths(t.left)[i] == all[i];
      assert forall i :: 0 <= i < |LeafPaths(t.right)| ==> LeafPaths(t.right)[i] == all[n + i];
      LeavesAscend(t.left, depth + 1);
      LeavesAscend(t.right, depth + 1);
      forall i, j | 0 <= i < j < |all| ensures BytesLess(all[i], all[j]) {
        if i < n <= j {
          LeafTurn(t, depth, i);
          LeafTurn(t, depth, j);
          PartingOrder(all[i], all[j], depth);
        } else if i >= n {
          assert BytesLess(LeafPaths(t.right)[i - n], LeafPaths(t.right)[j - n]);
        } else {
          assert BytesLess(LeafPaths(t.left)[i], LeafPaths(t.left)[j]);
        }
      }
    }
  }

  lemma PlacedBelow(t: Tree, depth: nat)
    requires t.Inner? && WellPlaced(t, depth)
    ensures WellPlaced(t.left, depth + 1) && WellPlaced(t.right, depth + 1)
  {
  }

  lemma LeafSizes(t: Tree)
    requires PathsSized(t)
    ensures forall i :: 0 <= i < |LeafPaths(t)| ==> |LeafPaths(t)[i]| == HASH_SIZE
  {
  }

  /** The same from the root: a sparse Merkle tree holds its paths in order. */
  lemma TreeIsOrdered(t: Tree)
    requires WellPlaced(t, 0) && PathsSized(t)
    ensures AscendingPaths(LeafPaths(t))
  {
    LeafSizes(t);
    LeavesAscend(t, 0);
  }

  // ---------------------------------------------------------------- sparse Merkle proofs

  /** Where the walk along a path ends: a leaf or an empty subtree. */
  function Terminal(t: Tree, path: Bytes, depth: nat): (r: Tree)
    requires depth + Depth(t) <= 8 * |path|
    ensures !r.Inner?
  {
    if t.Inner? then Terminal(if IsLeft(path, depth) then t.left else t.right, path, depth + 1) else t
  }

  /** The digests of the siblings met on the walk, deepest first. */
  function SideNodes(hash: Hash, t: Tree, path: Bytes, depth: nat): seq<Bytes>
    requires depth + Depth(t) <= 8 * |path|
  {
    if !t.Inner? then []
    else if IsLeft(path, depth) then SideNodes(hash, t.left, path, depth + 1) + [Digest(hash, t.right)]
    else SideNodes(hash, t.right, path, depth + 1) + [Digest(hash, t.left)]
  }

  lemma SideNodeCount(hash: Hash, t: Tree, path: Bytes, depth: nat)
    requires depth + Depth(t) <= 8 * |path|
    ensures |SideNodes(hash, t, path, depth)| <= Depth(t)
  {
  }

  lemma SideNodeSizes(hash: Hash, t: Tree, path: Bytes, depth: nat)
    requires depth + Depth(t) <= 8 * |path| && Sized(hash)
    ensures forall i :: 0 <= i < |SideNodes(hash, t, path, depth)| ==> |SideNodes(hash, t, path, depth)[i]| == HASH_SIZE
  {
    if t.Inner? {
      DigestSize(hash, t.left);
      DigestSize(hash, t.right);
    }
  }

  /** A well-placed tree holds a pair exactly when the walk along its path ends in that leaf. */
  lemma {:induction false} WalkFindsLeaf(t: Tree, path: Bytes, value: Bytes, depth: nat)
    requires depth + Depth(t) <= 8 * |path| && WellPlaced(t, depth)
    ensures Contains(t, path, value) <==> Terminal(t, path, depth) == Leaf(path, value)
  {
    if t.Inner? {
      if IsLeft(path, depth) {
        WalkFindsLeaf(t.left, path, value, depth + 1);
      } else {
        WalkFindsLeaf(t.right, path, value, depth + 1);
      }
    }
  }

  // ---------------------------------------------------------------- conversion to inner steps

  datatype InnerOp = InnerOp(prefix: Bytes, suffix: Bytes)

  /** One step: the side node goes on the side that the path does not take. */
  function StepOf(sideNode: Bytes, left: bool): InnerOp {
    if left then InnerOp(INNER_PREFIX, sideNode) else InnerOp(INNER_PREFIX + sideNode, [])
  }

  /** The steps for side nodes collected on a walk that began at `depth`. */
  function Steps(sideNodes: seq<Bytes>, path: Bytes, depth: nat): (r: seq<InnerOp>)
    requires depth + |sideNodes| <= 8 * |path|
    ensures |r| == |sideNodes|
  {
    seq(|sideNodes|, i requires 0 <= i < |sideNodes| => StepOf(sideNodes[i], IsLeft(path, depth + |sideNodes| - 1 - i)))
  }

  /** Bit n of a path, from the most significant bit of its first byte. */
  function PathBit(path: Bytes, n: nat): int
    requires n < 8 * |path|
  {
    path[n / 8] / [128, 64, 32, 16, 8, 4, 2, 1][n % 8] % 2
  }

  lemma TurnIsBit(path: Bytes, n: nat)
    requires n < 8 * |path|
    ensures IsLeft(path, n) <==> PathBit(path, n) == 0
  {
    ShiftedIsQuotient(path[n / 8]);
  }

  lemma ShiftedIsQuotient(x: Byte)
    ensures Shifted(x, 0) == x && Shifted(x, 1) == x / 2 && Shifted(x, 2) == x / 4 && Shifted(x, 3) == x / 8
    ensures Shifted(x, 4) == x / 16 && Shifted(x, 5) == x / 32 && Shifted(x, 6) == x / 64 && Shifted(x, 7) == x / 128
  {
    ShiftedHalves(x, 0);
    ShiftedHalves(x, 1);
    ShiftedHalves(x, 2);
    ShiftedHalves(x, 3);
    ShiftedHalves(x, 4);
    ShiftedHalves(x, 5);
    ShiftedHalves(x, 6);
  }

  /** The steps go from the deepest side node up; bit 0 leads to the left and puts the side node on the right. */
  method ConvertSideNodesToSteps(sideNodes: seq<Bytes>, path: Bytes) returns (steps: seq<InnerOp>)
    requires |sideNodes| <= 8 * |path|
    ensures steps == Steps(sideNodes, path, 0)
    ensures |steps| == |sideNodes|
    ensures forall i :: 0 <= i < |steps| ==>
      steps[i] == if PathBit(path, |sideNodes| - 1 - i) == 0 then InnerOp([1], sideNodes[i]) else InnerOp([1] + sideNodes[i], [])
  {
    hide PathBit, IsLeft;
    forall i | 0 <= i < |sideNodes|
      ensures Steps(sideNodes, path, 0)[i]
           == if PathBit(path, |sideNodes| - 1 - i) == 0 then InnerOp([1], sideNodes[i]) else InnerOp([1] + sideNodes[i], [])
    {
      TurnIsBit(path, |sideNodes| - 1 - i);
    }
    steps := [];
    for i := 0 to |sideNodes|
      invariant |steps| == i
      invariant forall j :: 0 <= j < i ==> steps[j] == Steps(sideNodes, path, 0)[j]
    {
      var prefix: Bytes, suffix: Bytes := [], [];
      prefix := prefix + INNER_PREFIX;
      if IsLeft(path, |sideNodes| - 1 - i) {
        suffix := suffix + sideNodes[i];
      } else {
        prefix := prefix + sideNodes[i];
      }
      steps := steps + [InnerOp(prefix, suffix)];
    }
  }

  function Apply(hash: Hash, op: InnerOp, child: Bytes): Bytes {
    hash(op.prefix + child + op.suffix)
  }

  /** The root that a verifier computes from a leaf and the steps above it. */
  function Fold(hash: Hash, steps: seq<InnerOp>, child: Bytes): Bytes {
    if steps == [] then child else Fold(hash, steps[1..], Apply(hash, steps[0], child))
  }

  lemma {:induction false} FoldLast(hash: Hash, steps: seq<InnerOp>, last: InnerOp, child: Bytes)
    ensures Fold(hash, steps + [last], child) == Apply(hash, last, Fold(hash, steps, child))
    decreases |steps|
  {
    if steps == [] {
      assert (steps + [last])[1..] == [];
    } else {
      assert (steps + [last])[1..] == steps[1..] + [last];
      FoldLast(hash, steps[1..], last, Apply(hash, steps[0], child));
    }
  }

  lemma StepsLast(sideNodes: seq<Bytes>, last: Bytes, path: Bytes, depth: nat)
    requires depth + |sideNodes| + 1 <= 8 * |path|
    ensures Steps(sideNodes + [last], path, depth) == Steps(sideNodes, path, depth + 1) + [StepOf(last, IsLeft(path, depth))]
  {
    var all := Steps(sideNodes + [last], path, depth);
    var parts := Steps(sideNodes, path, depth + 1) + [StepOf(last, IsLeft(path, depth))];
    forall i | 0 <= i < |all| ensures all[i] == parts[i] {
      if i < |sideNodes| {
        assert (sideNodes + [last])[i] == sideNodes[i];
        assert depth + |sideNodes + [last]| - 1 - i == depth + 1 + |sideNodes| - 1 - i;
      }
    }
  }

  /**
   * The conversion keeps the root: for every tree and every path, the steps fold the digest of
   * the node where the walk ends into the digest of the whole tree.
   */
  lemma {:induction false} StepsFoldToRoot(hash: Hash, t: Tree, path: Bytes, depth: nat)
    requires depth + Depth(t) <= 8 * |path|
    ensures |SideNodes(hash, t, path, depth)| <= Depth(t)
    ensures Fold(hash, Steps(SideNodes(hash, t, path, depth), path, depth), Digest(hash, Terminal(t, path, depth))) == Digest(hash, t)
    decreases t
  {
    hide IsLeft;
    hide Steps;
    hide Apply;
    hide StepOf;
    SideNodeCount(hash, t, path, depth);
    if t.Inner? {
      var left := IsLeft(path, depth);
      var child, sibling := if left then t.left else t.right, Digest(hash, if left then t.right else t.left);
      StepsFoldToRoot(hash, child, path, depth + 1);
      var below := SideNodes(hash, child, path, depth + 1);
      StepsLast(below, sibling, path, depth);
      FoldLast(hash, Steps(below, path, depth + 1), StepOf(sibling, left), Digest(hash, Terminal(child, path, depth + 1)));
      StepHashesParent(hash, Digest(hash, t.left), Digest(hash, t.right), left);
    }
  }

  lemma StepHashesParent(hash: Hash, l: Bytes, r: Bytes, left: bool)
    ensures Apply(hash, StepOf(if left then r else l, left), if left then l else r) == hash(INNER_PREFIX + l + r)
  {
    assert INNER_PREFIX + l + r + [] == INNER_PREFIX + l + r;
  }

  // ---------------------------------------------------------------- verification against smtSpec

  /** InnerSpec of smtSpec: one child of 32 bytes on either side of the hashed one. */
  predicate FitsSpec(op: InnerOp) {
    && MIN_PREFIX_LENGTH <= |op.prefix| <= MAX_PREFIX_LENGTH + HASH_SIZE
    && |op.suffix| % HASH_SIZE == 0
    && op.prefix[0] != LEAF_PREFIX[0]
  }

  lemma StepsFitSpec(hash: Hash, t: Tree, path: Bytes)
    requires Depth(t) <= 8 * |path| && Sized(hash)
    ensures |SideNodes(hash, t, path, 0)| <= 8 * |path|
    ensures forall op :: op in Steps(SideNodes(hash, t, path, 0), path, 0) ==> FitsSpec(op) && |op.prefix| + |op.suffix| == 1 + HASH_SIZE
  {
    SideNodeCount(hash, t, path, 0);
    SideNodeSizes(hash, t, path, 0);
  }

  datatype ExistenceProof = ExistenceProof(key: Bytes, value: Bytes, path: seq<InnerOp>)

  /** LeafSpec of smtSpec: the key is hashed before, the value is not. */
  function LeafHash(hash: Hash, key: Bytes, value: Bytes): Bytes {
    hash(LeafData(hash(key), value))
  }

  ghost predicate VerifyMembership(hash: Hash, root: Bytes, proof: ExistenceProof, key: Bytes, value: Bytes) {
    && proof.key == key && proof.value == value
    && (forall op :: op in proof.path ==> FitsSpec(op))
    && Fold(hash, proof.path, LeafHash(hash, key, value)) == root
  }

  /** Completeness: for a pair in the tree, the converted proof is accepted under the tree's root. */
  lemma MembersVerify(hash: Hash, t: Tree, key: Bytes, value: Bytes)
    requires Sized(hash) && Depth(t) <= 8 * HASH_SIZE && WellPlaced(t, 0) && Contains(t, hash(key), value)
    ensures |hash(key)| == HASH_SIZE && |SideNodes(hash, t, hash(key), 0)| <= 8 * HASH_SIZE
    ensures var steps := Steps(SideNodes(hash, t, hash(key), 0), hash(key), 0);
            VerifyMembership(hash, Digest(hash, t), ExistenceProof(key, value, steps), key, value)
  {
    var path := hash(key);
    WalkFindsLeaf(t, path, value, 0);
    StepsFoldToRoot(hash, t, path, 0);
    StepsFitSpec(hash, t, path);
  }

  /** `sideNodes` proves the pair in a tree whose leaves sit where their paths lead. */
  ghost predicate SideNodesOf(hash: Hash, t: Tree, key: Bytes, value: Bytes, sideNodes: seq<Bytes>) {
    && Sized(hash) && Depth(t) <= 8 * HASH_SIZE && |hash(key)| == HASH_SIZE
    && WellPlaced(t, 0) && Contains(t, hash(key), value) && sideNodes == SideNodes(hash, t, hash(key), 0)
  }

  /** The converted proof of a pair is accepted under the root of every tree that the sparse proof was made from. */
  method ConvertSMPToExistenceProof(hash: Hash, sideNodes: seq<Bytes>, key: Bytes, value: Bytes) returns (proof: ExistenceProof)
    requires |sideNodes| <= 8 * |hash(key)|
    ensures forall t :: SideNodesOf(hash, t, key, value, sideNodes) ==> VerifyMembership(hash, Digest(hash, t), proof, key, value)
    ensures proof.key == key && proof.value == value && proof.path == Steps(sideNodes, hash(key), 0)
  {
    hide Steps, VerifyMembership, Contains, WellPlaced, Digest;
    var path := hash(key);
    var steps := ConvertSideNodesToSteps(sideNodes, path);
    proof := ExistenceProof(key, value, steps);
    forall t | SideNodesOf(hash, t, key, value, sideNodes) ensures VerifyMembership(hash, Digest(hash, t), proof, key, value) {
      MembersVerify(hash, t, key, value);
    }
  }

  datatype ExclusionProof = ExclusionProof(key: Bytes, actualPath: Bytes, actualValue: Bytes, path: seq<InnerOp>)

  /** `leafData` is the leaf met at the end of the walk, if it met one of another path. */
  method ConvertSMPToExclusionProof(hash: Hash, sideNodes: seq<Bytes>, leafData: Option<Bytes>, key: Bytes) returns (proof: ExclusionProof)
    requires |sideNodes| <= 8 * |hash(key)|
    requires leafData.Some? ==> |leafData.value| >= 1 + HASH_SIZE
    ensures proof.key == key && proof.path == Steps(sideNodes, hash(key), 0)
    ensures leafData.None? ==> proof.actualPath == hash(key) && proof.actualValue == Placeholder()
    ensures leafData.Some? ==> |proof.actualPath| == HASH_SIZE && [leafData.value[0]] + proof.actualPath + proof.actualValue == leafData.value
  {
    var path := hash(key);
    var steps := ConvertSideNodesToSteps(sideNodes, path);
    var actualPath, actualValue := path, Placeholder();
    if leafData.Some? {
      actualPath := leafData.value[1..1 + HASH_SIZE];
      actualValue := leafData.value[1 + HASH_SIZE..];
    }
    proof := ExclusionProof(key, actualPath, actualValue, steps);
  }

  /** The leaf data that a sparse Merkle proof of absence carries. */
  function NonMembershipLeafData(t: Tree, path: Bytes): Option<Bytes>
    requires Depth(t) <= 8 * |path|
  {
    var end := Terminal(t, path, 0);
    if end.Leaf? && end.path != path then Some(LeafData(end.path, end.value)) else None
  }

  /**
   * Absence: for a key that is not in the tree the steps lead to the root either from the empty
   * digest or from the leaf of another path that the proof carries, and that leaf is in the tree.
   */
  lemma AbsentKeysFoldToRoot(hash: Hash, t: Tree, key: Bytes, actualPath: Bytes, actualValue: Bytes)
    requires Sized(hash) && Depth(t) <= 8 * HASH_SIZE && WellPlaced(t, 0) && PathsSized(t)
    requires forall v :: !Contains(t, hash(key), v)
    requires |actualPath| == |hash(key)| == HASH_SIZE
    requires var data := NonMembershipLeafData(t, hash(key)); data.Some? ==> LEAF_PREFIX + actualPath + actualValue == data.value
    ensures |SideNodes(hash, t, hash(key), 0)| <= 8 * HASH_SIZE
    ensures var path := hash(key);
            var steps := Steps(SideNodes(hash, t, path, 0), path, 0);
            if NonMembershipLeafData(t, path).None?
            then Fold(hash, steps, Placeholder()) == Digest(hash, t)
            else Fold(hash, steps, hash(LeafData(actualPath, actualValue))) == Digest(hash, t)
                 && actualPath != path && Contains(t, actualPath, actualValue)
  {
    var path := hash(key);
    var end := Terminal(t, path, 0);
    StepsFoldToRoot(hash, t, path, 0);
    if end.Leaf? {
      WalkFindsLeaf(t, path, end.value, 0);
      TerminalInTree(t, path, 0);
      var x := LeafData(end.path, end.value);
      assert end.path == x[1..1 + HASH_SIZE] && end.value == x[1 + HASH_SIZE..];
      var y := LeafData(actualPath, actualValue);
      assert actualPath == y[1..1 + HASH_SIZE] && actualValue == y[1 + HASH_SIZE..];
    }
  }

  lemma TerminalInTree(t: Tree, path: Bytes, depth: nat)
    requires depth + Depth(t) <= 8 * |path| && PathsSized(t)
    ensures var end := Terminal(t, path, depth); end.Leaf? ==> |end.path| == HASH_SIZE && Contains(t, end.path, end.value)
  {
  }

  // ---------------------------------------------------------------- soundness

  /** What is hashed to form the digests of a tree. */
  ghost function TreeInputs(hash: Hash, t: Tree): set<Bytes> {
    match t
    case Empty => {}
    case Leaf(path, value) => {LeafData(path, value)}
    case Inner(l, r) => {INNER_PREFIX + Digest(hash, l) + Digest(hash, r)} + TreeInputs(hash, l) + TreeInputs(hash, r)
  }

  /** What is hashed in each step of a verification. */
  ghost function FoldInputs(hash: Hash, steps: seq<InnerOp>, child: Bytes): set<Bytes> {
    if steps == [] then {}
    else {steps[0].prefix + child + steps[0].suffix} + FoldInputs(hash, steps[1..], Apply(hash, steps[0], child))
  }

  /** The hash tells apart what the tree hashed from what the verifier hashed, and from the empty digest. */
  ghost predicate NoCollision(hash: Hash, tree: set<Bytes>, proof: set<Bytes>) {
    && (forall x, y {:trigger x in tree, y in proof} :: x in tree && y in proof && hash(x) == hash(y) ==> x == y)
    && (forall y :: y in proof ==> hash(y) != Placeholder())
  }

  lemma {:induction false} FoldInputsLast(hash: Hash, steps: seq<InnerOp>, last: InnerOp, child: Bytes)
    ensures FoldInputs(hash, steps + [last], child) ==
            FoldInputs(hash, steps, child) + {last.prefix + Fold(hash, steps, child) + last.suffix}
    decreases |steps|
  {
    if steps == [] {
      assert (steps + [last])[1..] == [];
    } else {
      assert (steps + [last])[1..] == steps[1..] + [last];
      FoldInputsLast(hash, steps[1..], last, Apply(hash, steps[0], child));
    }
  }

  lemma FoldSize(hash: Hash, steps: seq<InnerOp>, child: Bytes)
    requires Sized(hash) && |child| == HASH_SIZE
    ensures |Fold(hash, steps, child)| == HASH_SIZE
  {
    if steps != [] {
      assert |Apply(hash, steps[0], child)| == HASH_SIZE;
    }
  }

  /** A fitting step whose input is that of an inner node hashes one of its two children. */
  lemma StepIsChild(op: InnerOp, child: Bytes, l: Bytes, r: Bytes)
    requires FitsSpec(op) && |child| == |l| == |r| == HASH_SIZE
    requires op.prefix + child + op.suffix == INNER_PREFIX + l + r
    ensures child == l || child == r
  {
    var x := op.prefix + child + op.suffix;
    assert |op.prefix| + |op.suffix| == 1 + HASH_SIZE;
    if |op.suffix| == 0 {
      assert child == x[1 + HASH_SIZE..] == r;
    } else {
      assert |op.suffix| == HASH_SIZE;
      assert child == x[1..1 + HASH_SIZE] == l;
    }
  }

  lemma LeafIsRoot(hash: Hash, t: Tree, path: Bytes, value: Bytes)
    requires |path| == HASH_SIZE && hash(LeafData(path, value)) == Digest(hash, t)
    requires NoCollision(hash, TreeInputs(hash, t), {LeafData(path, value)})
    requires PathsSized(t)
    ensures Contains(t, path, value)
  {
    var x := LeafData(path, value);
    assert x[0] == 0 && path == x[1..1 + HASH_SIZE] && value == x[1 + HASH_SIZE..];
    match t
    case Empty =>
    case Leaf(p, v) =>
      var y := LeafData(p, v);
      assert y in TreeInputs(hash, t) && Contains(t, p, v);
      assert p == y[1..1 + HASH_SIZE] && v == y[1 + HASH_SIZE..];
    case Inner(l, r) =>
  }

  lemma StepIsInner(hash: Hash, t: Tree, op: InnerOp, child: Bytes)
    requires Sized(hash) && FitsSpec(op) && |child| == HASH_SIZE && Apply(hash, op, child) == Digest(hash, t)
    requires NoCollision(hash, TreeInputs(hash, t), {op.prefix + child + op.suffix})
    ensures t.Inner? && (child == Digest(hash, t.left) || child == Digest(hash, t.right))
  {
    var x := op.prefix + child + op.suffix;
    assert x[0] == op.prefix[0];
    match t
    case Empty =>
    case Leaf(p, v) =>
    case Inner(l, r) =>
      DigestSize(hash, l);
      DigestSize(hash, r);
      assert INNER_PREFIX + Digest(hash, l) + Digest(hash, r) in TreeInputs(hash, t);
      StepIsChild(op, child, Digest(hash, l), Digest(hash, r));
  }

  /** Folding that reaches a tree's digest passes through the leaf it started from. */
  lemma {:induction false} FoldEndsInTree(hash: Hash, t: Tree, steps: seq<InnerOp>, path: Bytes, value: Bytes)
    requires Sized(hash) && |path| == HASH_SIZE
    requires forall op :: op in steps ==> FitsSpec(op)
    requires Fold(hash, steps, hash(LeafData(path, value))) == Digest(hash, t)
    requires NoCollision(hash, TreeInputs(hash, t), FoldInputs(hash, steps, hash(LeafData(path, value))) + {LeafData(path, value)})
    requires PathsSized(t)
    ensures Contains(t, path, value)
    decreases |steps|
  {
    hide LeafData;
    hide FitsSpec;
    hide Apply;
    hide NoCollision;
    hide Digest;
    var x := LeafData(path, value);
    var start := hash(x);
    var inputs := FoldInputs(hash, steps, start) + {x};
    if steps == [] {
      FewerInputs(hash, TreeInputs(hash, t), inputs, TreeInputs(hash, t), {x});
      LeafIsRoot(hash, t, path, value);
    } else {
      var rest, last := steps[..|steps| - 1], steps[|steps| - 1];
      assert steps == rest + [last];
      FoldLast(hash, rest, last, start);
      FoldInputsLast(hash, rest, last, start);
      FoldSize(hash, rest, start);
      FewerInputs(hash, TreeInputs(hash, t), inputs, TreeInputs(hash, t), {last.prefix + Fold(hash, rest, start) + last.suffix});
      StepIsInner(hash, t, last, Fold(hash, rest, start));
      var child := if Fold(hash, rest, start) == Digest(hash, t.left) then t.left else t.right;
      FewerInputs(hash, TreeInputs(hash, t), inputs, TreeInputs(hash, child), FoldInputs(hash, rest, start) + {x});
      FoldEndsInTree(hash, child, rest, path, value);
    }
  }

  lemma FewerInputs(hash: Hash, tree: set<Bytes>, proof: set<Bytes>, tree': set<Bytes>, proof': set<Bytes>)
    requires NoCollision(hash, tree, proof) && tree' <= tree && proof' <= proof
    ensures NoCollision(hash, tree', proof')
  {
  }

  /**
   * Soundness: a membership proof accepted under a tree's root proves that the pair is in the
   * tree, whoever built the proof, unless the hash collides on what was hashed.
   */
  lemma VerifiedIsMember(hash: Hash, t: Tree, proof: ExistenceProof, key: Bytes, value: Bytes)
    requires Sized(hash) && PathsSized(t)
    requires VerifyMembership(hash, Digest(hash, t), proof, key, value)
    requires NoCollision(hash, TreeInputs(hash, t),
                         FoldInputs(hash, proof.path, LeafHash(hash, key, value)) + {LeafData(hash(key), value)})
    ensures Contains(t, hash(key), value)
  {
    assert |hash(key)| == HASH_SIZE;
    FoldEndsInTree(hash, t, proof.path, hash(key), value);
  }
}
