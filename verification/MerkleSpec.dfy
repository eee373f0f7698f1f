/** Binary Merkle trees in heap layout: node 1 is the root, the children of node i are 2i and
    2i + 1, and the leaves of a tree of height h are the nodes from 2^h on. The hash of two
    nodes is any function. */
module MerkleSpec {

  /** The number of nodes on level n: the root alone, and twice as many on each next level. */
  function Width(n: nat): (p: nat)
    ensures p > 0
  {
    if n == 0 then 1 else 2 * Width(n - 1)
  }

  predicate NodeOk<T(==)>(hash: (T, T) -> T, nodes: seq<T>, i: int) {
    0 < i && 2 * i + 1 < |nodes| && nodes[i] == hash(nodes[2 * i], nodes[2 * i + 1])
  }

  /** Every inner node is the hash of its two children. */
  ghost predicate Consistent<T>(hash: (T, T) -> T, nodes: seq<T>, h: nat) {
    |nodes| == Width(h + 1) && forall i :: 0 < i < Width(h) ==> NodeOk(hash, nodes, i)
  }

  function Leaves<T>(nodes: seq<T>, h: nat): (leaves: seq<T>)
    requires |nodes| == Width(h + 1)
    ensures |leaves| == Width(h)
  {
    nodes[Width(h)..]
  }

  /** The root of a tree rebuilt from its leaves. */
  function MerkleRoot<T>(hash: (T, T) -> T, leaves: seq<T>, h: nat): T
    requires |leaves| == Width(h)
  {
    if h == 0 then leaves[0]
    else
      var half := Width(h - 1);
      hash(MerkleRoot(hash, leaves[..half], h - 1), MerkleRoot(hash, leaves[half..], h - 1))
  }

  /** The leftmost node r levels below node i. */
  function FirstBelow(i: nat, r: nat): nat
    decreases r
  {
    if r == 0 then i else FirstBelow(2 * i, r - 1)
  }

  lemma {:induction false} FirstBelowNext(i: nat, r: nat)
    ensures FirstBelow(i + 1, r) == FirstBelow(i, r) + Width(r)
    ensures FirstBelow(i, r) >= i
    decreases r
  {
    if r > 0 {
      FirstBelowNext(2 * i, r - 1);
      FirstBelowNext(2 * i + 1, r - 1);
    }
  }

  /** FirstBelow(1, h) is the first leaf of a tree of height h. */
  lemma {:induction false} FirstLeaf(i: nat, h: nat)
    ensures FirstBelow(i, h) == i * Width(h)
    decreases h
  {
    if h > 0 { FirstLeaf(2 * i, h - 1); }
  }

  /** In a consistent tree a node is the root of the leaves below it. */
  lemma {:induction false} NodeIsRootOfItsLeaves<T>(hash: (T, T) -> T, nodes: seq<T>, h: nat, i: nat, r: nat)
    requires Consistent(hash, nodes, h)
    requires 0 < i && Width(h) <= FirstBelow(i, r) && FirstBelow(i, r) + Width(r) <= Width(h + 1)
    ensures i < |nodes|
    ensures nodes[i] == RootAt(hash, nodes, FirstBelow(i, r), r)
    decreases r
  {
    var first := FirstBelow(i, r);
    FirstBelowNext(i, r);
    if r > 0 {
      FirstBelowNext(2 * i, r - 1);
      assert FirstBelow(2 * i, r - 1) == first && FirstBelow(2 * i + 1, r - 1) == first + Width(r - 1);
      NodeIsRootOfItsLeaves(hash, nodes, h, 2 * i, r - 1);
      NodeIsRootOfItsLeaves(hash, nodes, h, 2 * i + 1, r - 1);
      RootOfHalves(hash, nodes, first, r);
      assert NodeOk(hash, nodes, i);
    }
  }

  /** The root of the leaves from a place on. */
  function RootAt<T>(hash: (T, T) -> T, nodes: seq<T>, first: nat, r: nat): T
    requires first + Width(r) <= |nodes|
  {
    MerkleRoot(hash, nodes[first..first + Width(r)], r)
  }

  lemma RootOfHalves<T>(hash: (T, T) -> T, nodes: seq<T>, first: nat, r: nat)
    requires r > 0 && first + Width(r) <= |nodes|
    ensures RootAt(hash, nodes, first, r)
         == hash(RootAt(hash, nodes, first, r - 1), RootAt(hash, nodes, first + Width(r - 1), r - 1))
  {
    Halves(nodes, first, Width(r - 1));
  }

  lemma Halves<T>(s: seq<T>, first: nat, half: nat)
    requires first + half + half <= |s|
    ensures s[first..first + 2 * half][..half] == s[first..first + half]
    ensures s[first..first + 2 * half][half..] == s[first + half..first + half + half]
  {
  }

  /** The stored root is the root rebuilt from the stored leaves. */
  lemma {:induction false} RootIsMerkleRoot<T>(hash: (T, T) -> T, nodes: seq<T>, h: nat)
    requires Consistent(hash, nodes, h)
    ensures nodes[1] == MerkleRoot(hash, Leaves(nodes, h), h)
  {
    FirstLeaf(1, h);
    NodeIsRootOfItsLeaves(hash, nodes, h, 1, h);
    assert nodes[Width(h)..Width(h) + Width(h)] == Leaves(nodes, h);
  }

  /** The leaves determine every node. */
  lemma {:induction false} LeavesDetermineNodes<T>(hash: (T, T) -> T, a: seq<T>, b: seq<T>, h: nat, i: nat)
    requires Consistent(hash, a, h) && Consistent(hash, b, h) && Leaves(a, h) == Leaves(b, h)
    requires 0 < i < Width(h + 1)
    ensures a[i] == b[i]
    decreases Width(h + 1) - i
  {
    if i < Width(h) {
      assert NodeOk(hash, a, i) && NodeOk(hash, b, i);
      LeavesDetermineNodes(hash, a, b, h, 2 * i);
      LeavesDetermineNodes(hash, a, b, h, 2 * i + 1);
    } else {
      assert a[i] == Leaves(a, h)[i - Width(h)];
      assert b[i] == Leaves(b, h)[i - Width(h)];
    }
  }

  // ---------- Updates ----------

  datatype Update<T> = Update(leafId: nat, value: T)

  /** The leaves after a run of updates, in order. */
  function Apply<T>(leaves: seq<T>, updates: seq<Update<T>>): (r: seq<T>)
    requires forall u :: u in updates ==> u.leafId < |leaves|
    ensures |r| == |leaves|
  {
    if updates == [] then leaves
    else
      var last := updates[|updates| - 1];
      Apply(leaves, updates[..|updates| - 1])[last.leafId := last.value]
  }

  /** Trees that store the results of two updates of different leaves, made in either order,
      agree in every node. */
  lemma {:induction false} UpdatesCommute<T>(hash: (T, T) -> T, leaves: seq<T>, h: nat, a: Update<T>, b: Update<T>,
                                             ab: seq<T>, ba: seq<T>)
    requires |leaves| == Width(h) && a.leafId < Width(h) && b.leafId < Width(h) && a.leafId != b.leafId
    requires Consistent(hash, ab, h) && Leaves(ab, h) == Apply(leaves, [a, b])
    requires Consistent(hash, ba, h) && Leaves(ba, h) == Apply(leaves, [b, a])
    ensures ab[1..] == ba[1..]
  {
    assert [a, b][..1] == [a] && [b, a][..1] == [b] && [a][..0] == [] && [b][..0] == [];
    assert Apply(leaves, [a]) == leaves[a.leafId := a.value];
    assert Apply(leaves, [b]) == leaves[b.leafId := b.value];
    assert Apply(leaves, [a, b]) == Apply(leaves, [b, a]);
    forall i | 0 < i < Width(h + 1) ensures ab[i] == ba[i] {
      LeavesDetermineNodes(hash, ab, ba, h, i);
    }
  }

  /** All inner nodes but possibly one are the hash of their children. */
  ghost predicate ConsistentBut<T>(hash: (T, T) -> T, nodes: seq<T>, h: nat, hole: nat) {
    |nodes| == Width(h + 1) && forall i :: 0 < i < Width(h) && i != hole ==> NodeOk(hash, nodes, i)
  }

  /** Changing a leaf leaves its parent to be rehashed. */
  lemma LeafChanged<T>(hash: (T, T) -> T, nodes: seq<T>, h: nat, leaf: nat, value: T)
    requires Consistent(hash, nodes, h) && Width(h) <= leaf < Width(h + 1)
    ensures ConsistentBut(hash, nodes[leaf := value], h, leaf / 2)
  {
    var nodes' := nodes[leaf := value];
    forall k | 0 < k < Width(h) && k != leaf / 2 ensures NodeOk(hash, nodes', k) {
      assert NodeOk(hash, nodes, k);
    }
  }

  /** Rehashing the one inconsistent node leaves its parent to be rehashed. */
  lemma {:induction false} NodeRehashed<T>(hash: (T, T) -> T, nodes: seq<T>, h: nat, p: nat)
    requires ConsistentBut(hash, nodes, h, p) && 0 < p < Width(h)
    ensures 2 * p + 1 < |nodes|
    ensures ConsistentBut(hash, nodes[p := hash(nodes[2 * p], nodes[2 * p + 1])], h, p / 2)
  {
    var nodes' := nodes[p := hash(nodes[2 * p], nodes[2 * p + 1])];
    forall k | 0 < k < Width(h) && k != p / 2 ensures NodeOk(hash, nodes', k) {
      if k != p { assert NodeOk(hash, nodes, k); }
    }
  }

  // ---------- Paths and proofs ----------

  function Sibling(i: nat): nat
    requires i > 0
  {
    if i % 2 == 0 then i + 1 else i - 1
  }

  /** k is i or an ancestor of i. */
  predicate OnPath(k: int, i: nat) {
    k == i || (i > 1 && OnPath(k, i / 2))
  }

  lemma {:induction false} OnPathUp(k: nat, i: nat)
    requires OnPath(k, i) && k > 1
    ensures OnPath(k / 2, i)
  {
    if k != i { OnPathUp(k, i / 2); }
  }

  /** The siblings of i and of its ancestors, from the bottom up. */
  function ProofOf<T>(nodes: seq<T>, i: nat): seq<T>
    requires 0 < i < |nodes| && |nodes| % 2 == 0
  {
    if i == 1 then [] else [nodes[Sibling(i)]] + ProofOf(nodes, i / 2)
  }

  /** Hashing a value up from node i with a list of siblings. */
  function FoldUp<T>(hash: (T, T) -> T, value: T, i: nat, proof: seq<T>): T
    decreases |proof|
  {
    if proof == [] then value
    else FoldUp(hash, if i % 2 == 0 then hash(value, proof[0]) else hash(proof[0], value), i / 2, proof[1..])
  }

  /** How far below the root a node is. */
  function Level(i: nat): nat {
    if i <= 1 then 0 else 1 + Level(i / 2)
  }

  lemma {:induction false} LevelIs(i: nat, level: nat)
    requires Width(level) <= i < Width(level + 1)
    ensures Level(i) == level
  {
    if level > 0 { LevelIs(i / 2, level - 1); }
  }

  lemma {:induction false} ProofLength<T>(nodes: seq<T>, i: nat)
    requires 0 < i < |nodes| && |nodes| % 2 == 0
    ensures |ProofOf(nodes, i)| == Level(i)
  {
    if i > 1 { ProofLength(nodes, i / 2); }
  }

  lemma ParentOk<T>(hash: (T, T) -> T, nodes: seq<T>, h: nat, i: nat)
    requires Consistent(hash, nodes, h) && 1 < i < |nodes|
    ensures nodes[i / 2] == if i % 2 == 0 then hash(nodes[i], nodes[Sibling(i)]) else hash(nodes[Sibling(i)], nodes[i])
  {
    assert NodeOk(hash, nodes, i / 2);
  }

  /** A stored node folds up to the root with its proof. */
  lemma {:induction false} ProofFoldsToRoot<T>(hash: (T, T) -> T, nodes: seq<T>, h: nat, i: nat)
    requires Consistent(hash, nodes, h) && 0 < i < |nodes|
    ensures FoldUp(hash, nodes[i], i, ProofOf(nodes, i)) == nodes[1]
  {
    if i > 1 {
      ParentOk(hash, nodes, h, i);
      ProofFoldsToRoot(hash, nodes, h, i / 2);
      assert ProofOf(nodes, i)[1..] == ProofOf(nodes, i / 2);
    }
  }

  ghost predicate Injective<T(!new)>(hash: (T, T) -> T) {
    forall a, b, c, d :: hash(a, b) == hash(c, d) ==> a == c && b == d
  }

  /** Under an injective hash nothing else of the same length folds up to the root from
      there: the value is the stored node and the siblings are the stored ones. */
  lemma {:induction false} RootBinds<T(!new)>(hash: (T, T) -> T, nodes: seq<T>, h: nat, i: nat, value: T, proof: seq<T>)
    requires Consistent(hash, nodes, h) && 0 < i < |nodes| && Injective(hash)
    requires |proof| == |ProofOf(nodes, i)| && FoldUp(hash, value, i, proof) == nodes[1]
    ensures value == nodes[i] && proof == ProofOf(nodes, i)
  {
    if i > 1 {
      ParentOk(hash, nodes, h, i);
      var parent := if i % 2 == 0 then hash(value, proof[0]) else hash(proof[0], value);
      assert ProofOf(nodes, i)[1..] == ProofOf(nodes, i / 2);
      RootBinds(hash, nodes, h, i / 2, parent, proof[1..]);
      assert proof == [proof[0]] + proof[1..];
    }
  }

  /** Injectivity is what binding takes: a collision of the hash gives a tree of height 1 whose
      root a wrong leaf folds up to. */
  lemma CollisionBreaksBinding<T>(hash: (T, T) -> T, a: T, b: T, c: T, d: T)
    requires hash(a, b) == hash(c, d) && (a != c || b != d)
    ensures var nodes := [a, hash(a, b), a, b];
      && Consistent(hash, nodes, 1)
      && FoldUp(hash, c, 2, [d]) == nodes[1] && |[d]| == |ProofOf(nodes, 2)|
      && (c != nodes[2] || [d] != ProofOf(nodes, 2))
  {
    var nodes := [a, hash(a, b), a, b];
    assert Width(1) == 2 && Width(2) == 4;
    assert ProofOf(nodes, 2) == [b] + ProofOf(nodes, 1) == [b];
    assert FoldUp(hash, c, 2, [d]) == FoldUp(hash, hash(c, d), 1, [d][1..]) == hash(c, d);
  }

  // ---------- Rehashing one path ----------

  /** The nodes after rehashing the ancestors of i, bottom up, against the given siblings. */
  function Rehash<T>(hash: (T, T) -> T, nodes: seq<T>, i: nat, proof: seq<T>): (r: seq<T>)
    requires 0 < i < |nodes|
    ensures |r| == |nodes|
    decreases i
  {
    if i == 1 || proof == [] then nodes
    else
      var parent := if i % 2 == 0 then hash(nodes[i], proof[0]) else hash(proof[0], nodes[i]);
      Rehash(hash, nodes[i / 2 := parent], i / 2, proof[1..])
  }

  lemma {:induction false} RehashOnlyAncestors<T>(hash: (T, T) -> T, nodes: seq<T>, i: nat, proof: seq<T>, k: nat)
    requires 0 < i < |nodes| && k < |nodes| && (k == i || !OnPath(k, i) || i / 2 < k)
    ensures Rehash(hash, nodes, i, proof)[k] == nodes[k]
    decreases i
  {
    if i > 1 && proof != [] {
      var parent := if i % 2 == 0 then hash(nodes[i], proof[0]) else hash(proof[0], nodes[i]);
      RehashOnlyAncestors(hash, nodes[i / 2 := parent], i / 2, proof[1..], k);
    }
  }

  /** A proof does not depend on the node it is for. */
  lemma {:induction false} ProofOffNode<T>(a: seq<T>, b: seq<T>, i: nat)
    requires |a| == |b| && |a| % 2 == 0 && 0 < i < |a|
    requires forall k :: 0 <= k < |a| && k != i ==> a[k] == b[k]
    ensures ProofOf(a, i) == ProofOf(b, i)
  {
    if i > 1 {
      ProofAbove(a, b, i / 2, i);
      assert a[Sibling(i)] == b[Sibling(i)];
    }
  }

  lemma {:induction false} ProofAbove<T>(a: seq<T>, b: seq<T>, i: nat, changed: nat)
    requires |a| == |b| && |a| % 2 == 0 && 0 < i < |a| && (i == 1 || i + 1 < changed)
    requires forall k :: 0 <= k < |a| && k != changed ==> a[k] == b[k]
    ensures ProofOf(a, i) == ProofOf(b, i)
  {
    if i > 1 {
      ProofAbove(a, b, i / 2, changed);
      assert a[Sibling(i)] == b[Sibling(i)];
    }
  }

  /** Rehashing against the stored siblings repairs the tree. */
  lemma {:induction false} RehashRepairs<T>(hash: (T, T) -> T, nodes: seq<T>, h: nat, i: nat)
    requires ConsistentBut(hash, nodes, h, i / 2) && 0 < i < |nodes|
    ensures Consistent(hash, Rehash(hash, nodes, i, ProofOf(nodes, i)), h)
    decreases i
  {
    if i > 1 {
      var proof := ProofOf(nodes, i);
      var parent := if i % 2 == 0 then hash(nodes[i], proof[0]) else hash(proof[0], nodes[i]);
      var nodes' := nodes[i / 2 := parent];
      NodeRehashed(hash, nodes, h, i / 2);
      assert parent == hash(nodes[2 * (i / 2)], nodes[2 * (i / 2) + 1]);
      ProofOffNode(nodes, nodes', i / 2);
      assert proof[1..] == ProofOf(nodes', i / 2);
      assert Rehash(hash, nodes, i, proof) == Rehash(hash, nodes', i / 2, proof[1..]);
      RehashRepairs(hash, nodes', h, i / 2);
    }
  }
}
