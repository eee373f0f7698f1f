/** Folds over lists of big integers. */
module BigintHelper {

  function FoldMax(arr: seq<int>, acc: int): int {
    if arr == [] then acc else FoldMax(arr[1..], if arr[0] > acc then arr[0] else acc)
  }

  /** The folding step of both bigIntMax and bigIntMin: the two bodies coincide. */
  function BigIntMax(arr: seq<int>): int
    requires arr != []
  {
    FoldMax(arr, arr[0])
  }

  function BigIntMin(arr: seq<int>): int
    requires arr != []
  {
    FoldMax(arr, arr[0])
  }

  lemma {:induction false} FoldMaxIsMax(arr: seq<int>, acc: int)
    ensures FoldMax(arr, acc) == acc || FoldMax(arr, acc) in arr
    ensures acc <= FoldMax(arr, acc)
    ensures forall i :: 0 <= i < |arr| ==> arr[i] <= FoldMax(arr, acc)
  {
    if arr != [] {
      FoldMaxIsMax(arr[1..], if arr[0] > acc then arr[0] else acc);
      forall i | 0 <= i < |arr| ensures arr[i] <= FoldMax(arr, acc) {
        if i > 0 { assert arr[i] == arr[1..][i - 1]; }
      }
    }
  }

  lemma BigIntMaxIsMax(arr: seq<int>)
    requires arr != []
    ensures BigIntMax(arr) in arr
    ensures forall i :: 0 <= i < |arr| ==> arr[i] <= BigIntMax(arr)
  {
    FoldMaxIsMax(arr, arr[0]);
  }

  /** bigIntMin returns a least element exactly when all elements are equal. */
  lemma BigIntMinIsMinExactlyOnConstantLists(arr: seq<int>)
    requires arr != []
    ensures (forall i :: 0 <= i < |arr| ==> BigIntMin(arr) <= arr[i])
      <==> (forall i :: 0 <= i < |arr| ==> arr[i] == arr[0])
  {
    FoldMaxIsMax(arr, arr[0]);
    if forall i :: 0 <= i < |arr| ==> BigIntMin(arr) <= arr[i] {
      assert BigIntMin(arr) <= arr[0];
    }
  }
}
