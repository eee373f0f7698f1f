/** The shape of a Merkle root and the places of a co-path, told without the node array: the
    root as a binary tree over its leaves, the path of a leaf as quotients of its node id. */
module MerkleLaws {
  import opened Powers
  import opened MerkleSpec
  import opened SparseMerkleTree

  datatype Tree = Tip(leaf: int) | Fork(left: Tree, right: Tree)

  predicate Full(t: Tree, h: nat) {
    match t
    case Tip(_) => h == 0
    case Fork(l, r) => h > 0 && Full(l, h - 1) && Full(r, h - 1)
  }

  /** The leaves of a tree from left to right. */
  function Tips(t: Tree): seq<int> {
    match t
    case Tip(leaf) => [leaf]
    case Fork(l, r) => Tips(l) + Tips(r)
  }

  function Join(a: Tree, b: Tree): Tree {
    Fork(a, b)
  }

  function AsTips(leaves: seq<int>): (s: seq<Tree>)
    ensures |s| == |leaves| && forall i :: 0 <= i < |s| ==> s[i] == Tip(leaves[i])
  {
    seq(|leaves|, i requires 0 <= i < |leaves| => Tip(leaves[i]))
  }

  lemma {:induction false} TipsCount(t: Tree, h: nat)
    requires Full(t, h)
    ensures |Tips(t)| == Width(h)
  {
    if t.Fork? {
      TipsCount(t.left, h - 1);
      TipsCount(t.right, h - 1);
    }
  }

  /** With hashes left standing as pairs, the root is the full binary tree that has the leaves
      from left to right, and no other tree is. */
  lemma {:induction false} RootIsFullTree(leaves: seq<int>, h: nat, t: Tree)
    requires |leaves| == Width(h)
    ensures t == MerkleRoot(Join, AsTips(leaves), h) <==> Full(t, h) && Tips(t) == leaves
    decreases h
  {
    if h == 0 {
      assert Full(t, 0) && Tips(t) == leaves ==> t == Tip(Tips(t)[0]);
      assert leaves == [leaves[0]];
    } else {
      var half := Width(h - 1);
      var a, b := leaves[..half], leaves[half..];
      assert leaves == a + b;
      assert AsTips(leaves)[..half] == AsTips(a) && AsTips(leaves)[half..] == AsTips(b);
      if t.Fork? {
        RootIsFullTree(a, h - 1, t.left);
        RootIsFullTree(b, h - 1, t.right);
        if Full(t, h) && Tips(t) == leaves {
          TipsCount(t.left, h - 1);
          assert Tips(t.left) == Tips(t)[..half] && Tips(t.right) == Tips(t)[half..];
        }
      }
    }
  }

  lemma {:induction false} WidthIsPower(n: nat)
    ensures Width(n) == Pow(2, n)
  {
    if n > 0 { WidthIsPower(n - 1); }
  }

  /** The j-th id of a co-path is the other child of the ancestor j + 1 levels up. */
  lemma {:induction false} ProofIdsAt(i: nat, j: nat)
    requires i > 0 && j < |ProofIds(i)|
    ensures Pow(2, j) > 0 && Pow(2, j + 1) > 0
    ensures ProofIds(i)[j] / 2 == i / Pow(2, j + 1) && ProofIds(i)[j] != i / Pow(2, j)
  {
    PowPositive(2, j);
    DivTwice(i, 2, Pow(2, j));
    if j == 0 {
      assert Pow(2, 0) == 1;
    } else {
      PowPositive(2, j - 1);
      DivTwice(i, 2, Pow(2, j - 1));
      ProofIdsAt(i / 2, j - 1);
      assert ProofIds(i)[j] == ProofIds(i / 2)[j - 1];
    }
  }
}
