/** The Merkle tree kept in one array and updated along one path at a time. */
module DenseMerkleTree {
  import opened MerkleSpec

  lemma OneMoreGiven<T>(given: seq<T>, rest: seq<T>, i: nat)
    requires i < |given| <= |rest|
    ensures (given[..i] + rest[i..])[i := given[i]] == given[..i + 1] + rest[i + 1..]
  {
  }

  /** Every node that is not on the way from a leaf to the root is what it was. */
  ghost predicate OffPathKept<T>(before: seq<T>, after: seq<T>, leaf: nat) {
    |after| == |before| && forall k :: 0 <= k < |before| && !OnPath(k, leaf) ==> after[k] == before[k]
  }

  class TsMerkleTree<T> {
    var nodes: array<T>
    const treeHeight: nat
    const hash: (T, T) -> T
    const defaultLeaf: T

    ghost predicate Valid()
      reads this, nodes
    {
      Consistent(hash, nodes[..], treeHeight)
    }

    /** The leaves as they stand. */
    ghost function Contents(): seq<T>
      requires Valid()
      reads this, nodes
    {
      Leaves(nodes[..], treeHeight)
    }

    /** A tree over the given leaves, filled up with default leaves. */
    constructor (leafs: seq<T>, treeHeight: nat, hash: (T, T) -> T, defaultLeaf: T)
      requires |leafs| <= Width(treeHeight)
      ensures Valid() && fresh(nodes)
      ensures this.treeHeight == treeHeight && this.hash == hash && this.defaultLeaf == defaultLeaf
      ensures Contents() == leafs + seq(Width(treeHeight) - |leafs|, _ => defaultLeaf)
    {
      this.treeHeight, this.hash, this.defaultLeaf := treeHeight, hash, defaultLeaf;
      nodes := new T[Width(treeHeight + 1)](_ => defaultLeaf);
      new;
      Parse();
      ghost var rest := seq(Width(treeHeight), _ => defaultLeaf);
      var i := 0;
      while i < |leafs|
        invariant 0 <= i <= |leafs|
        invariant Valid() && fresh(nodes)
        invariant Contents() == leafs[..i] + rest[i..]
      {
        OneMoreGiven(leafs, rest, i);
        UpdateLeafNode(i, leafs[i]);
        assert Contents() == leafs[..i + 1] + rest[i + 1..];
        i := i + 1;
      }
      assert leafs[..i] == leafs && rest[i..] == seq(Width(treeHeight) - |leafs|, _ => defaultLeaf);
    }

    /** Fills the tree with default leaves and hashes it level by level from the last node. */
    method Parse()
      modifies this`nodes
      ensures Valid() && fresh(nodes)
      ensures Contents() == seq(Width(treeHeight), _ => defaultLeaf)
    {
      nodes := new T[Width(treeHeight + 1)](_ => defaultLeaf);
      var i := Width(treeHeight) - 1;
      while i > 0
        invariant 0 <= i < Width(treeHeight)
        invariant fresh(nodes) && nodes.Length == Width(treeHeight + 1)
        invariant HashedAbove(hash, nodes[..], treeHeight, i)
        invariant forall k :: Width(treeHeight) <= k < nodes.Length ==> nodes[k] == defaultLeaf
      {
        HashOneMore(hash, nodes[..], treeHeight, i);
        ghost var now := nodes[..];
        nodes[i] := hash(nodes[i * 2], nodes[i * 2 + 1]);
        assert nodes[..] == now[i := hash(now[2 * i], now[2 * i + 1])];
        i := i - 1;
      }
    }

    method GetRoot() returns (root: T)
      requires Valid()
      ensures root == MerkleRoot(hash, Contents(), treeHeight)
    {
      RootIsMerkleRoot(hash, nodes[..], treeHeight);
      root := nodes[1];
    }

    method GetLeaf(leafId: nat) returns (leaf: T)
      requires Valid() && leafId < Width(treeHeight)
      ensures leaf == Contents()[leafId]
    {
      leaf := nodes[leafId + Width(treeHeight)];
    }

    /** The siblings on the way from a leaf to the root. */
    method GetProof(leafId: nat) returns (prf: seq<T>)
      requires Valid() && leafId < Width(treeHeight)
      ensures prf == ProofOf(nodes[..], leafId + Width(treeHeight)) && |prf| == treeHeight
      ensures FoldUp(hash, Contents()[leafId], leafId + Width(treeHeight), prf)
        == MerkleRoot(hash, Contents(), treeHeight)
    {
      prf := [];
      ghost var leafNode := leafId + Width(treeHeight);
      var i := leafId + Width(treeHeight);
      while i > 1
        invariant 0 < i < nodes.Length
        invariant prf + ProofOf(nodes[..], i) == ProofOf(nodes[..], leafNode)
      {
        prf := prf + [nodes[if i % 2 == 0 then i + 1 else i - 1]];
        i := i / 2;
      }
      assert prf + [] == prf == ProofOf(nodes[..], leafNode);
      ProofLength(nodes[..], leafNode);
      LevelIs(leafNode, treeHeight);
      ProofFoldsToRoot(hash, nodes[..], treeHeight, leafNode);
      RootIsMerkleRoot(hash, nodes[..], treeHeight);
    }

    /** Replaces one leaf and rehashes the path above it; nothing off that path changes. */
    method UpdateLeafNode(leafId: nat, value: T)
      requires Valid() && leafId < Width(treeHeight)
      modifies nodes
      ensures Valid() && Contents() == old(Contents())[leafId := value]
      ensures OffPathKept(old(nodes[..]), nodes[..], leafId + Width(treeHeight))
    {
      var prf := GetProof(leafId);
      var leafNodeId := leafId + Width(treeHeight);
      ghost var before := nodes[..];
      nodes[leafNodeId] := value;
      ghost var replaced := before[leafNodeId := value];
      assert nodes[..] == replaced;
      LevelIs(leafNodeId, treeHeight);
      var i, j := leafNodeId, 0;
      while i > 1
        invariant 0 < i < nodes.Length && 0 <= j && |prf| - j == Level(i)
        invariant Rehash(hash, nodes[..], i, prf[j..]) == Rehash(hash, replaced, leafNodeId, prf)
      {
        ghost var now := nodes[..];
        var r := if i % 2 == 0 then hash(nodes[i], prf[j]) else hash(prf[j], nodes[i]);
        nodes[i / 2] := r;
        assert nodes[..] == now[i / 2 := r] && prf[j..][1..] == prf[j + 1..];
        i := i / 2;
        j := j + 1;
      }
      ghost var after := nodes[..];
      assert prf[j..] == [] && after == Rehash(hash, replaced, leafNodeId, prf);
      PathReplaced(hash, before, treeHeight, leafNodeId, value);
    }
  }

  /** What replacing one leaf and rehashing its path amounts to. */
  lemma PathReplaced<T>(hash: (T, T) -> T, before: seq<T>, h: nat, leaf: nat, value: T)
    requires Consistent(hash, before, h) && Width(h) <= leaf < Width(h + 1)
    ensures var after := Rehash(hash, before[leaf := value], leaf, ProofOf(before, leaf));
      && Consistent(hash, after, h)
      && Leaves(after, h) == Leaves(before, h)[leaf - Width(h) := value]
      && OffPathKept(before, after, leaf)
  {
    var replaced := before[leaf := value];
    var after := Rehash(hash, replaced, leaf, ProofOf(before, leaf));
    LeafChanged(hash, before, h, leaf, value);
    ProofOffNode(before, replaced, leaf);
    RehashRepairs(hash, replaced, h, leaf);
    forall k | 0 <= k < |before| && (!OnPath(k, leaf) || Width(h) <= k)
      ensures after[k] == replaced[k]
    {
      RehashOnlyAncestors(hash, replaced, leaf, ProofOf(before, leaf), k);
    }
  }

  /** The inner nodes above position i are the hashes of their children. */
  ghost predicate HashedAbove<T>(hash: (T, T) -> T, nodes: seq<T>, h: nat, i: nat) {
    |nodes| == Width(h + 1) && forall k :: i < k < Width(h) ==> NodeOk(hash, nodes, k)
  }

  lemma {:induction false} HashOneMore<T>(hash: (T, T) -> T, nodes: seq<T>, h: nat, i: nat)
    requires HashedAbove(hash, nodes, h, i) && 0 < i < Width(h)
    ensures 2 * i + 1 < |nodes|
    ensures HashedAbove(hash, nodes[i := hash(nodes[2 * i], nodes[2 * i + 1])], h, i - 1)
  {
    var nodes' := nodes[i := hash(nodes[2 * i], nodes[2 * i + 1])];
    forall k | i - 1 < k < Width(h) ensures NodeOk(hash, nodes', k) {
      if k != i { assert NodeOk(hash, nodes, k); }
    }
  }
}
