/** The hash told by its rounds alone: each round takes a seventh power of the value before it,
    the key and the round's constant. */
module MimcReference {
  import opened JsBigInt
  import opened MimcHash

  function Power(t: int, n: nat): int {
    if n == 0 then 1 else t * Power(t, n - 1)
  }

  lemma {:induction false} SeventhPower(t: int)
    ensures Pow7(t) == Power(t, 7)
  {
    var t2 := t * t;
    assert Power(t, 1) == t * Power(t, 0) == t;
    assert Power(t, 2) == t * Power(t, 1) == t2;
    assert Power(t, 3) == t * Power(t, 2) == t * t2;
    assert Power(t, 4) == t * Power(t, 3) == t2 * t2;
    assert Power(t, 5) == t * Power(t, 4) == t * (t2 * t2);
    assert Power(t, 6) == t * Power(t, 5) == t2 * t2 * t2;
    assert Power(t, 7) == t * Power(t, 6) == t2 * t2 * t2 * t;
  }

  /** r is a reduced to a remainder that is not negative. */
  predicate Reduced(r: int, a: int, p: int)
    requires p > 0
  {
    0 <= r < p && (a - r) % p == 0
  }

  /** r is a reduced to a remainder with the sign of a. */
  predicate Truncated(r: int, a: int, p: int)
    requires p > 0
  {
    -p < r < p && (a - r) % p == 0 && (a >= 0 ==> r >= 0) && (a <= 0 ==> r <= 0)
  }

  lemma ModReduces(a: int, p: int)
    requires p > 0
    ensures Reduced(a % p, a, p)
  {
    DivModUnique(a - a % p, p, a / p, 0);
  }

  lemma ReducedUnique(r: int, a: int, p: int)
    requires p > 0 && Reduced(r, a, p)
    ensures r == a % p
  {
    var q := (a - r) / p;
    assert a == q * p + r;
    DivModUnique(a, p, q, r);
  }

  lemma TruncReduces(a: int, p: int)
    requires p > 0
    ensures Truncated(TruncMod(a, p), a, p)
  {
    DivModUnique(a - TruncMod(a, p), p, TruncDiv(a, p), 0);
  }

  lemma TruncatedUnique(r: int, a: int, p: int)
    requires p > 0 && Truncated(r, a, p)
    ensures r == TruncMod(a, p)
  {
    var q := (a - r) / p;
    assert a == q * p + r;
    if a >= 0 {
      DivModUnique(a, p, q, r);
    } else {
      assert -a == -q * p + -r;
      DivModUnique(-a, p, -q, -r);
    }
  }

  /** What round i raises: the input under the key, or the value before with key and constant.
      The first constant is not used. */
  function Base(f: Field, x: int, k: int, v: seq<int>, i: nat): int
    requires i < |f.c| == |v|
  {
    if i == 0 then x + k else v[i - 1] + k + f.c[i]
  }

  /** v lists the values after each round of the plain hash. */
  predicate PlainValues(f: Field, x: int, k: int, v: seq<int>) {
    |v| == |f.c| && forall i :: 0 <= i < |v| ==> Reduced(v[i], Power(Base(f, x, k, v, i), 7), f.p)
  }

  /** v lists the values after each round of the truncating hash. */
  predicate TruncatedValues(f: Field, x: int, k: int, v: seq<int>) {
    |v| == |f.c| && forall i :: 0 <= i < |v| ==> Truncated(v[i], Power(Base(f, x, k, v, i), 7), f.p)
  }

  lemma {:induction false} PlainValuesAre(f: Field, x: int, k: int, v: seq<int>, i: nat)
    requires PlainValues(f, x, k, v) && i < |v|
    ensures v[i] == PlainRounds(f, x, k, i + 1)
  {
    if i > 0 { PlainValuesAre(f, x, k, v, i - 1); }
    SeventhPower(Base(f, x, k, v, i));
    ReducedUnique(v[i], Power(Base(f, x, k, v, i), 7), f.p);
  }

  lemma {:induction false} TruncatedValuesAre(f: Field, x: int, k: int, v: seq<int>, i: nat)
    requires TruncatedValues(f, x, k, v) && i < |v|
    ensures v[i] == Rounds(f, x, k, i + 1)
  {
    if i > 0 { TruncatedValuesAre(f, x, k, v, i - 1); }
    SeventhPower(Base(f, x, k, v, i));
    TruncatedUnique(v[i], Power(Base(f, x, k, v, i), 7), f.p);
  }

  function LastOr0(v: seq<int>): int {
    if v == [] then 0 else v[|v| - 1]
  }

  function PlainList(f: Field, x: int, k: int): (v: seq<int>)
    ensures |v| == |f.c| && forall i :: 0 <= i < |v| ==> v[i] == PlainRounds(f, x, k, i + 1)
  {
    seq(|f.c|, i requires 0 <= i < |f.c| => PlainRounds(f, x, k, i + 1))
  }

  function TruncatedList(f: Field, x: int, k: int): (v: seq<int>)
    ensures |v| == |f.c| && forall i :: 0 <= i < |v| ==> v[i] == Rounds(f, x, k, i + 1)
  {
    seq(|f.c|, i requires 0 <= i < |f.c| => Rounds(f, x, k, i + 1))
  }

  lemma {:induction false} PlainStep(f: Field, x: int, k: int, i: nat)
    requires i < |f.c|
    ensures Reduced(PlainRounds(f, x, k, i + 1), Power(Base(f, x, k, PlainList(f, x, k), i), 7), f.p)
  {
    SeventhPower(Base(f, x, k, PlainList(f, x, k), i));
    ModReduces(Pow7(Base(f, x, k, PlainList(f, x, k), i)), f.p);
  }

  lemma {:induction false} TruncatedStep(f: Field, x: int, k: int, i: nat)
    requires i < |f.c|
    ensures Truncated(Rounds(f, x, k, i + 1), Power(Base(f, x, k, TruncatedList(f, x, k), i), 7), f.p)
  {
    SeventhPower(Base(f, x, k, TruncatedList(f, x, k), i));
    TruncReduces(Pow7(Base(f, x, k, TruncatedList(f, x, k), i)), f.p);
  }

  /** There is one list of round values, and the plain hash is its last value with the key added,
      reduced. */
  lemma PlainHashByRounds(f: Field, x: int, k: int, v: seq<int>)
    ensures PlainValues(f, x, k, v) <==> v == PlainList(f, x, k)
    ensures PlainValues(f, x, k, v) ==> Reduced(PlainHash(f, x, k), LastOr0(v) + k, f.p)
  {
    if PlainValues(f, x, k, v) {
      forall i | 0 <= i < |v| ensures v[i] == PlainList(f, x, k)[i] { PlainValuesAre(f, x, k, v, i); }
    } else {
      forall i | 0 <= i < |f.c| { PlainStep(f, x, k, i); }
    }
    ModReduces(LastOr0(PlainList(f, x, k)) + k, f.p);
  }

  /** The same for the truncating hash. */
  lemma HashByRounds(f: Field, x: int, k: int, v: seq<int>)
    ensures TruncatedValues(f, x, k, v) <==> v == TruncatedList(f, x, k)
    ensures TruncatedValues(f, x, k, v) ==> Truncated(Hash(f, x, k), LastOr0(v) + k, f.p)
  {
    if TruncatedValues(f, x, k, v) {
      forall i | 0 <= i < |v| ensures v[i] == TruncatedList(f, x, k)[i] { TruncatedValuesAre(f, x, k, v, i); }
    } else {
      forall i | 0 <= i < |f.c| { TruncatedStep(f, x, k, i); }
    }
    TruncReduces(LastOr0(TruncatedList(f, x, k)) + k, f.p);
  }

  /** A list is hashed element by element: the value so far is the key of the next hash, and is
      added with the element to it. */
  lemma {:induction false} ListByElements(f: Field, inputs: seq<int>, x: int, k: int)
    ensures PlainMultiHash(f, [], k) == k == MultiHash(f, [], k)
    ensures var m := PlainMultiHash(f, inputs, k);
      Reduced(PlainMultiHash(f, inputs + [x], k), PlainHash(f, x, m) + m + x, f.p)
    ensures var m := MultiHash(f, inputs, k);
      Truncated(MultiHash(f, inputs + [x], k), Hash(f, x, m) + m + x, f.p)
  {
    assert (inputs + [x])[..|inputs|] == inputs;
    var m, m' := PlainMultiHash(f, inputs, k), MultiHash(f, inputs, k);
    ModReduces(PlainHash(f, x, m) + m + x, f.p);
    TruncReduces(Hash(f, x, m') + m' + x, f.p);
  }
}
