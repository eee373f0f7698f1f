/** The tree kept in a table: nodes that were never written have the default hash of their
    level, and a leaf's co-path is a list of node ids. */
module SparseMerkleTree {
  import opened Wrappers
  import opened MerkleSpec

  /** The hash of a subtree of height k with default leaves only. */
  function DefaultHash<T>(hash: (T, T) -> T, leaf: T, k: nat): T {
    if k == 0 then leaf else hash(DefaultHash(hash, leaf, k - 1), DefaultHash(hash, leaf, k - 1))
  }

  /** The siblings of node i and of its ancestors, from the bottom up. */
  function ProofIds(i: nat): (ids: seq<nat>)
    requires i > 0
  {
    if i == 1 then [] else [Sibling(i)] + ProofIds(i / 2)
  }

  class TsMerkleTree<T> {
    const treeHeight: nat
    const lastLevel: nat
    const hashFunc: (T, T) -> T
    const leafDefaultValue: T
    var levelsDefaultHash: map<nat, T>

    constructor (treeHeight: nat, hashFunc: (T, T) -> T, leafDefaultValue: T)
      ensures this.treeHeight == this.lastLevel == treeHeight && this.hashFunc == hashFunc
      ensures this.leafDefaultValue == leafDefaultValue && levelsDefaultHash == map[]
    {
      this.treeHeight, this.lastLevel := treeHeight, treeHeight;
      this.hashFunc, this.leafDefaultValue := hashFunc, leafDefaultValue;
      levelsDefaultHash := map[];
    }

    /** The table holds exactly the default hashes of the levels from `top` to the leaves. */
    ghost predicate TabledFrom(top: int)
      reads this
    {
      forall level ::
        && (level in levelsDefaultHash <==> top <= level <= lastLevel)
        && (level in levelsDefaultHash && level <= lastLevel ==>
              levelsDefaultHash[level] == DefaultHash(hashFunc, leafDefaultValue, lastLevel - level))
    }

    method SetLevelDefaultHash()
      modifies this
      ensures TabledFrom(0)
    {
      levelsDefaultHash := map[lastLevel := leafDefaultValue];
      var level := lastLevel - 1;
      while level >= 0
        invariant -1 <= level < lastLevel
        invariant TabledFrom(level + 1)
      {
        var prevLevelHash := levelsDefaultHash[level + 1];
        levelsDefaultHash := levelsDefaultHash[level := hashFunc(prevLevelHash, prevLevelHash)];
        level := level - 1;
      }
    }

    /** A level outside the tree has no default hash; asking for it is an error. */
    method GetDefaultHashByLevel(level: nat) returns (r: Option<T>)
      requires TabledFrom(0)
      ensures r == if level <= lastLevel then Some(DefaultHash(hashFunc, leafDefaultValue, lastLevel - level)) else None
    {
      r := if level in levelsDefaultHash then Some(levelsDefaultHash[level]) else None;
    }

    /** The id lies on the leaves' level exactly when the leaf is in the tree. */
    method GetLeafIdInTree(leafId: nat) returns (id: nat)
      ensures id == leafId + Width(treeHeight)
      ensures Level(id) == treeHeight <==> leafId < Width(treeHeight)
    {
      id := leafId + Width(treeHeight);
      LevelIsExactly(id, treeHeight);
    }

    /** As many ids as the tree is high exactly when the leaf is in the tree. */
    method GetProofIds(leafId: nat) returns (prf: seq<nat>)
      ensures prf == ProofIds(leafId + Width(treeHeight))
      ensures |prf| == treeHeight <==> leafId < Width(treeHeight)
    {
      prf := [];
      ghost var leafStart := leafId + Width(treeHeight);
      var i := leafId + Width(treeHeight);
      while i > 1
        invariant i > 0
        invariant prf + ProofIds(i) == ProofIds(leafStart)
      {
        ProofIdsStep(prf, i);
        if i % 2 == 0 {
          prf := prf + [i + 1];
        } else {
          prf := prf + [i - 1];
        }
        i := i / 2;
      }
      ProofIdsLength(leafStart);
      LevelIsExactly(leafStart, treeHeight);
    }
  }

  lemma {:induction false} ProofIdsStep(prf: seq<nat>, i: nat)
    requires i > 1
    ensures prf + [if i % 2 == 0 then i + 1 else i - 1] + ProofIds(i / 2) == prf + ProofIds(i)
  {
  }

  lemma {:induction false} ProofIdsLength(i: nat)
    requires i > 0
    ensures |ProofIds(i)| == Level(i)
  {
    if i > 1 { ProofIdsLength(i / 2); }
  }

  lemma {:induction false} LevelIsExactly(i: nat, level: nat)
    requires i > 0
    ensures Level(i) == level <==> Width(level) <= i < Width(level + 1)
  {
    if level > 0 && i > 1 { LevelIsExactly(i / 2, level - 1); }
  }

  /** The ids are where the dense tree takes its proof from. */
  lemma {:induction false} ProofIdsNameTheProof<T>(nodes: seq<T>, i: nat)
    requires 0 < i < |nodes| && |nodes| % 2 == 0
    ensures |ProofOf(nodes, i)| == |ProofIds(i)|
    ensures forall j ::
      0 <= j < |ProofIds(i)| ==> ProofIds(i)[j] < |nodes| && ProofOf(nodes, i)[j] == nodes[ProofIds(i)[j]]
  {
    if i > 1 { ProofIdsNameTheProof(nodes, i / 2); }
  }

  /** In a tree without updates every node of the dense array is the default hash of its level. */
  lemma {:induction false} DefaultsAgreeWithDenseTree<T>(hash: (T, T) -> T, nodes: seq<T>, h: nat, leaf: T, i: nat)
    requires Consistent(hash, nodes, h) && 0 < i < Width(h + 1)
    requires forall k :: Width(h) <= k < Width(h + 1) ==> nodes[k] == leaf
    ensures Level(i) <= h && nodes[i] == DefaultHash(hash, leaf, h - Level(i))
    decreases Width(h + 1) - i
  {
    if i < Width(h) {
      assert NodeOk(hash, nodes, i);
      DefaultsAgreeWithDenseTree(hash, nodes, h, leaf, 2 * i);
      DefaultsAgreeWithDenseTree(hash, nodes, h, leaf, 2 * i + 1);
      assert Level(2 * i) == 1 + Level(i) == Level(2 * i + 1);
    } else {
      LevelIs(i, h);
    }
  }

  /** How many of the subtrees at these ids contain node x. */
  function Containing(ids: seq<nat>, x: nat): nat {
    if ids == [] then 0 else (if OnPath(ids[0], x) then 1 else 0) + Containing(ids[1..], x)
  }

  lemma {:induction false} SameLevelOnPath(k: nat, x: nat)
    requires OnPath(k, x) && k > 0 && x > 0
    ensures Level(k) <= Level(x) && (Level(k) == Level(x) ==> k == x)
  {
    if k != x { SameLevelOnPath(k, x / 2); }
  }

  /** A subtree rooted above level x contains x exactly when it contains x's parent. */
  lemma {:induction false} ContainingParent(ids: seq<nat>, x: nat)
    requires x > 1 && forall j :: 0 <= j < |ids| ==> ids[j] != x
    ensures Containing(ids, x) == Containing(ids, x / 2)
  {
    if ids != [] { ContainingParent(ids[1..], x); }
  }

  lemma {:induction false} ProofIdsLevels(i: nat, j: nat)
    requires i > 0 && j < |ProofIds(i)|
    ensures ProofIds(i)[j] > 0 && Level(ProofIds(i)[j]) <= Level(i)
  {
    if j > 0 { ProofIdsLevels(i / 2, j - 1); }
  }

  /** The subtrees of a co-path and the leaf itself cover every node of the leaf's level
      exactly once: any other such node is in exactly one of them, the leaf in none. */
  lemma {:induction false} CoPathPartitionsLeaves(i: nat, x: nat)
    requires i > 0 && x > 0 && Level(x) == Level(i)
    ensures Containing(ProofIds(i), x) == if x == i then 0 else 1
  {
    if i > 1 {
      CoPathPartitionsLeaves(i / 2, x / 2);
      var above := ProofIds(i / 2);
      forall j | 0 <= j < |above| ensures above[j] != x {
        ProofIdsLevels(i / 2, j);
      }
      ContainingParent(above, x);
      assert ProofIds(i)[1..] == above;
      assert Level(Sibling(i)) == Level(i);
      if OnPath(Sibling(i), x) { SameLevelOnPath(Sibling(i), x); }
    }
  }
}
