/** Finite integer sums: over an index range, over a sequence and over a set. */
module Sums {

  /** f(0) + ... + f(n-1) */
  function SumTo(n: nat, f: int -> int): int {
    if n == 0 then 0 else SumTo(n - 1, f) + f(n - 1)
  }

  function Sum(s: seq<int>): int {
    if s == [] then 0 else Sum(s[..|s| - 1]) + s[|s| - 1]
  }

  lemma {:induction false} SumConcat(s: seq<int>, t: seq<int>)
    ensures Sum(s + t) == Sum(s) + Sum(t)
  {
    if t == [] {
      assert s + t == s;
    } else {
      SumConcat(s, t[..|t| - 1]);
      assert (s + t)[..|s + t| - 1] == s + t[..|t| - 1];
    }
  }

  lemma {:induction false} SumToMonotone(n: nat, f: int -> int, g: int -> int)
    requires forall i :: 0 <= i < n ==> f(i) <= g(i)
    ensures SumTo(n, f) <= SumTo(n, g)
  {
    if n > 0 { SumToMonotone(n - 1, f, g); }
  }

  lemma {:induction false} SumToSame(n: nat, f: int -> int, g: int -> int)
    requires forall i :: 0 <= i < n ==> f(i) == g(i)
    ensures SumTo(n, f) == SumTo(n, g)
  {
    if n > 0 { SumToSame(n - 1, f, g); }
  }

  lemma {:induction false} SumToPlus(n: nat, f: int -> int, g: int -> int)
    ensures SumTo(n, i => f(i) + g(i)) == SumTo(n, f) + SumTo(n, g)
  {
    if n > 0 { SumToPlus(n - 1, f, g); }
  }

  lemma {:induction false} SumToSeq(s: seq<int>, f: int -> int)
    requires forall i :: 0 <= i < |s| ==> f(i) == s[i]
    ensures Sum(s) == SumTo(|s|, f)
  {
    if s != [] { SumToSeq(s[..|s| - 1], f); }
  }

  lemma {:induction false} SumToZero(n: nat, f: int -> int)
    requires forall i :: 0 <= i < n ==> f(i) == 0
    ensures SumTo(n, f) == 0
  {
    if n > 0 { SumToZero(n - 1, f); }
  }

  /** Row sums added up equal column sums added up. */
  lemma {:induction false} SumToSwap(m: nat, n: nat, x: (int, int) -> int)
    ensures SumTo(m, i => SumTo(n, j => x(i, j))) == SumTo(n, j => SumTo(m, i => x(i, j)))
  {
    if m == 0 {
      SumToZero(n, j => SumTo(m, i => x(i, j)));
    } else {
      SumToSwap(m - 1, n, x);
      var top := j => SumTo(m - 1, i => x(i, j));
      var last := j => x(m - 1, j);
      SumToPlus(n, top, last);
      SumToSame(n, j => top(j) + last(j), j => SumTo(m, i => x(i, j)));
      SumToSame(m - 1, i => SumTo(n, j => x(i, j)), i => SumTo(n, j => x(i, j)));
    }
  }

  /** The sum of f over a finite set. */
  ghost function SumOver<K>(s: set<K>, f: K -> int): int {
    if s == {} then 0 else var k :| k in s; f(k) + SumOver(s - {k}, f)
  }

  lemma {:induction false} SumOverSplit<K>(s: set<K>, f: K -> int, k: K)
    requires k in s
    ensures SumOver(s, f) == f(k) + SumOver(s - {k}, f)
    decreases s
  {
    var c :| c in s && SumOver(s, f) == f(c) + SumOver(s - {c}, f);
    if c != k {
      SumOverSplit(s - {c}, f, k);
      SumOverSplit(s - {k}, f, c);
      assert s - {c} - {k} == s - {k} - {c};
    }
  }

  lemma {:induction false} SumOverSame<K>(s: set<K>, f: K -> int, g: K -> int)
    requires forall k :: k in s ==> f(k) == g(k)
    ensures SumOver(s, f) == SumOver(s, g)
    decreases s
  {
    if s != {} {
      var k :| k in s;
      SumOverSplit(s, f, k);
      SumOverSplit(s, g, k);
      SumOverSame(s - {k}, f, g);
    }
  }

  /** Changing the summand at one key changes the sum by the difference there. A key that
      joins the set counts as having contributed nothing before. */
  lemma {:induction false} SumOverChange<K>(s: set<K>, f: K -> int, g: K -> int, k: K)
    requires forall j :: j in s && j != k ==> f(j) == g(j)
    ensures SumOver(s + {k}, g) == SumOver(s, f) + g(k) - (if k in s then f(k) else 0)
  {
    SumOverSplit(s + {k}, g, k);
    assert s + {k} - {k} == s - {k};
    SumOverSame(s - {k}, f, g);
    if k in s {
      SumOverSplit(s, f, k);
    } else {
      assert s - {k} == s;
    }
  }
}
