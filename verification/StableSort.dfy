/** A stable sort of a list by an integer key: what the order-preserving list sort of the
    matching engines promises. */
module StableSort {

  /** The elements of s whose key is r, in their order in s. */
  function Pick<T>(s: seq<T>, key: T -> int, r: int): seq<T> {
    if s == [] then [] else (if key(s[0]) == r then [s[0]] else []) + Pick(s[1..], key, r)
  }

  predicate Sorted<T>(s: seq<T>, key: T -> int) {
    forall i, j :: 0 <= i < j < |s| ==> key(s[i]) <= key(s[j])
  }

  /** t lists the elements of s by ascending key and keeps the order of equal keys. */
  ghost predicate IsStableSort<T>(s: seq<T>, t: seq<T>, key: T -> int) {
    Sorted(t, key) && forall r :: Pick(t, key, r) == Pick(s, key, r)
  }

  function Insert<T>(s: seq<T>, x: T, key: T -> int): seq<T> {
    if s == [] || key(s[|s| - 1]) <= key(x) then s + [x]
    else Insert(s[..|s| - 1], x, key) + [s[|s| - 1]]
  }

  function Sort<T>(s: seq<T>, key: T -> int): seq<T> {
    if s == [] then [] else Insert(Sort(s[..|s| - 1], key), s[|s| - 1], key)
  }

  lemma Regrouped<T>(a: seq<T>, b: seq<T>, c: seq<T>)
    ensures a + (b + c) == a + b + c
  {
  }

  lemma {:induction false} PickConcat<T>(s: seq<T>, t: seq<T>, key: T -> int, r: int)
    ensures Pick(s + t, key, r) == Pick(s, key, r) + Pick(t, key, r)
  {
    if s == [] {
      assert s + t == t;
    } else {
      PickConcat(s[1..], t, key, r);
      assert (s + t)[1..] == s[1..] + t;
      Regrouped(if key(s[0]) == r then [s[0]] else [], Pick(s[1..], key, r), Pick(t, key, r));
    }
  }

  lemma {:induction false} PickSound<T>(s: seq<T>, key: T -> int, r: int)
    ensures forall x :: x in Pick(s, key, r) <==> x in s && key(x) == r
  {
    if s != [] {
      PickSound(s[1..], key, r);
      assert s == [s[0]] + s[1..];
    }
  }

  lemma {:induction false} InsertMember<T>(s: seq<T>, x: T, key: T -> int)
    ensures multiset(Insert(s, x, key)) == multiset(s) + multiset{x}
  {
    if !(s == [] || key(s[|s| - 1]) <= key(x)) {
      InsertMember(s[..|s| - 1], x, key);
      assert s == s[..|s| - 1] + [s[|s| - 1]];
    }
  }

  lemma {:induction false} InsertSorted<T>(s: seq<T>, x: T, key: T -> int)
    requires Sorted(s, key)
    ensures Sorted(Insert(s, x, key), key)
  {
    if !(s == [] || key(s[|s| - 1]) <= key(x)) {
      var front := s[..|s| - 1];
      InsertSorted(front, x, key);
      InsertMember(front, x, key);
      var t := Insert(front, x, key);
      forall i | 0 <= i < |t|
        ensures key(t[i]) <= key(s[|s| - 1])
      {
        assert t[i] in multiset(t);
        assert t[i] in front || t[i] == x;
      }
    }
  }

  lemma {:induction false} PickOne<T>(x: T, key: T -> int, r: int)
    ensures Pick([x], key, r) == if key(x) == r then [x] else []
  {
    assert [x][1..] == [];
  }

  lemma {:induction false} InsertPick<T>(s: seq<T>, x: T, key: T -> int, r: int)
    requires Sorted(s, key)
    ensures Pick(Insert(s, x, key), key, r) == Pick(s + [x], key, r)
  {
    if !(s == [] || key(s[|s| - 1]) <= key(x)) {
      var front, last := s[..|s| - 1], s[|s| - 1];
      InsertPick(front, x, key, r);
      PickConcat(Insert(front, x, key), [last], key, r);
      PickConcat(front, [x], key, r);
      PickConcat(s, [x], key, r);
      PickConcat(front, [last], key, r);
      assert s == front + [last];
      PickOne(x, key, r);
      PickOne(last, key, r);
      var kept := Pick(front, key, r);
      assert kept + [] == kept;
      if key(x) == r { assert kept + [] + [x] == kept + [x] + []; }
    }
  }

  /** The insertion sort is a stable sort. */
  lemma {:induction false} SortIsStable<T>(s: seq<T>, key: T -> int)
    ensures IsStableSort(s, Sort(s, key), key)
  {
    if s != [] {
      var front, last := s[..|s| - 1], s[|s| - 1];
      SortIsStable(front, key);
      InsertSorted(Sort(front, key), last, key);
      forall r
        ensures Pick(Sort(s, key), key, r) == Pick(s, key, r)
      {
        InsertPick(Sort(front, key), last, key, r);
        PickConcat(Sort(front, key), [last], key, r);
        PickConcat(front, [last], key, r);
        assert s == front + [last];
      }
    }
  }

  /** A list has one stable sort. */
  lemma {:induction false} StableSortUnique<T>(t: seq<T>, u: seq<T>, key: T -> int)
    requires Sorted(t, key) && Sorted(u, key)
    requires forall r :: Pick(t, key, r) == Pick(u, key, r)
    ensures t == u
  {
    if t == [] {
      var r := if u == [] then 0 else key(u[0]);
      assert Pick(t, key, r) == Pick(u, key, r);
    } else {
      var k := key(t[0]);
      assert Pick(u, key, k) != [];
      PickSound(t, key, k);
      PickSound(u, key, k);
      assert t[0] in u;
      var m := key(u[0]);
      PickSound(t, key, m);
      PickSound(u, key, m);
      assert u[0] in t;
      assert k == m;
      assert t[0] == Pick(t, key, k)[0] == Pick(u, key, k)[0] == u[0];
      forall r
        ensures Pick(t[1..], key, r) == Pick(u[1..], key, r)
      {
        var head := if k == r then [t[0]] else [];
        assert Pick(t, key, r) == head + Pick(t[1..], key, r);
        assert Pick(u, key, r) == head + Pick(u[1..], key, r);
        assert Pick(t[1..], key, r) == Pick(t, key, r)[|head|..];
        assert Pick(u[1..], key, r) == Pick(u, key, r)[|head|..];
      }
      StableSortUnique(t[1..], u[1..], key);
    }
  }

  lemma {:induction false} SortMultiset<T>(s: seq<T>, key: T -> int)
    ensures multiset(Sort(s, key)) == multiset(s)
    ensures |Sort(s, key)| == |s|
  {
    if s != [] {
      var front, last := s[..|s| - 1], s[|s| - 1];
      SortMultiset(front, key);
      InsertMember(Sort(front, key), last, key);
      assert s == front + [last];
      assert |multiset(Sort(s, key))| == |multiset(s)|;
    }
  }

  predicate Distinct<T(==)>(s: seq<T>) {
    forall i, j :: 0 <= i < j < |s| ==> s[i] != s[j]
  }

  lemma {:induction false} InsertDistinct<T>(s: seq<T>, x: T, key: T -> int)
    requires Distinct(s) && x !in s
    ensures Distinct(Insert(s, x, key))
    ensures forall y :: y in Insert(s, x, key) <==> y in s || y == x
  {
    if !(s == [] || key(s[|s| - 1]) <= key(x)) {
      var front, last := s[..|s| - 1], s[|s| - 1];
      InsertDistinct(front, x, key);
      assert s == front + [last];
      assert last !in front;
    }
  }

  lemma {:induction false} SortDistinct<T>(s: seq<T>, key: T -> int)
    requires Distinct(s)
    ensures Distinct(Sort(s, key))
    ensures forall y :: y in Sort(s, key) <==> y in s
  {
    if s != [] {
      SortDistinct(s[..|s| - 1], key);
      InsertDistinct(Sort(s[..|s| - 1], key), s[|s| - 1], key);
      assert s == s[..|s| - 1] + [s[|s| - 1]];
    }
  }
}
