/** MiMC7 in two implementations: the plain one, and the one whose remainders truncate toward
    zero. Both run over any modulus and list of round constants; BN254 names the ones in use. */
module MimcHash {
  import opened JsBigInt
  import opened MimcConstants

  datatype FieldBase = Field(p: int, c: seq<nat>)

  type Field = f: FieldBase | f.p > 0 witness Field(1, [])

  const BN254: Field := Field(P, ROUND_CONSTANTS)

  const N_ROUNDS: nat := 91

  function Pow7(t: int): int {
    var t2 := t * t;
    var t4 := t2 * t2;
    t4 * t2 * t
  }

  // ---------- The plain hash ----------

  /** The running value after n rounds; the first round adds no constant. */
  function PlainRounds(f: Field, x: int, k: int, n: nat): int
    requires n <= |f.c|
  {
    if n == 0 then 0
    else Pow7(if n == 1 then x + k else PlainRounds(f, x, k, n - 1) + (k + f.c[n - 1])) % f.p
  }

  function PlainHash(f: Field, x: int, k: int): int {
    (PlainRounds(f, x, k, |f.c|) + k) % f.p
  }

  function PlainMultiHash(f: Field, inputs: seq<int>, k: int): int {
    if inputs == [] then k
    else
      var n := |inputs| - 1;
      var temp := PlainMultiHash(f, inputs[..n], k);
      (PlainHash(f, inputs[n], temp) + temp + inputs[n]) % f.p
  }

  /** The loop form, with the number of rounds written out. */
  method MiMC7_91(f: Field, x: int, k: int) returns (ret: int)
    requires |f.c| == N_ROUNDS
    ensures ret == PlainHash(f, x, k)
  {
    ret := 0;
    var i := 0;
    while i < N_ROUNDS
      invariant 0 <= i <= N_ROUNDS
      invariant ret == PlainRounds(f, x, k, i)
    {
      var t := if i == 0 then x + k else ret + (k + f.c[i]);
      ret := Pow7(t) % f.p;
      i := i + 1;
    }
    ret := (ret + k) % f.p;
  }

  method MultiMiMC7_91(f: Field, inputs: seq<int>, k: int) returns (r: int)
    requires |f.c| == N_ROUNDS
    ensures r == PlainMultiHash(f, inputs, k)
  {
    r := k;
    var i := 0;
    while i < |inputs|
      invariant 0 <= i <= |inputs|
      invariant r == PlainMultiHash(f, inputs[..i], k)
    {
      var temp := r;
      var h := MiMC7_91(f, inputs[i], temp);
      r := (h + temp + inputs[i]) % f.p;
      assert inputs[..i + 1][..i] == inputs[..i];
      i := i + 1;
    }
    assert inputs[..i] == inputs;
  }

  // ---------- The truncating hash ----------

  function Rounds(f: Field, x: int, k: int, n: nat): int
    requires n <= |f.c|
  {
    if n == 0 then 0
    else TruncMod(Pow7(if n == 1 then k + x else k + Rounds(f, x, k, n - 1) + f.c[n - 1]), f.p)
  }

  function Hash(f: Field, x: int, k: int): int {
    TruncMod(Rounds(f, x, k, |f.c|) + k, f.p)
  }

  function MultiHash(f: Field, inputs: seq<int>, k: int): int {
    if inputs == [] then k
    else
      var n := |inputs| - 1;
      var temp := MultiHash(f, inputs[..n], k);
      TruncMod(Hash(f, inputs[n], temp) + temp + inputs[n], f.p)
  }

  // ---------- Agreement ----------

  /** The same residue class. */
  predicate Same(a: int, b: int, m: int)
    requires m > 0
  {
    a % m == b % m
  }

  lemma MulSame(a: int, b: int, c: int, d: int, m: int)
    requires m > 0 && Same(a, b, m) && Same(c, d, m)
    ensures Same(a * c, b * d, m)
  {
    var q, r := a / m - b / m, c / m - d / m;
    assert a == b + q * m && c == d + r * m;
    assert a * c == b * d + (b * r + q * d + q * m * r) * m;
    ModShift(b * d, b * r + q * d + q * m * r, m);
  }

  lemma AddSame(a: int, b: int, c: int, d: int, m: int)
    requires m > 0 && Same(a, b, m) && Same(c, d, m)
    ensures Same(a + c, b + d, m)
  {
    var q, r := a / m - b / m, c / m - d / m;
    assert a == b + q * m && c == d + r * m;
    assert a + c == (b + d) + (q + r) * m;
    ModShift(b + d, q + r, m);
  }

  lemma Pow7Same(a: int, b: int, m: int)
    requires m > 0 && Same(a, b, m)
    ensures Same(Pow7(a), Pow7(b), m)
  {
    MulSame(a, b, a, b, m);
    MulSame(a * a, b * b, a * a, b * b, m);
    MulSame((a * a) * (a * a), (b * b) * (b * b), a * a, b * b, m);
    MulSame((a * a) * (a * a) * (a * a), (b * b) * (b * b) * (b * b), a, b, m);
  }

  lemma ModSame(a: int, m: int)
    requires m > 0
    ensures Same(a % m, a, m)
  {
    ModShift(a % m, a / m, m);
  }

  /** What one reduction, truncating on one side and not on the other, does to a class. */
  lemma ReducedSame(a: int, b: int, m: int)
    requires m > 0 && Same(a, b, m)
    ensures Same(TruncMod(a, m), b % m, m) && Same(TruncMod(a, m), b, m)
  {
    TruncModCongruent(a, m);
    ModSame(b, m);
  }

  lemma RoundSame(k: int, k': int, r: int, r': int, c: int, m: int)
    requires m > 0 && Same(k, k', m) && Same(r, r', m)
    ensures Same(k + r + c, r' + (k' + c), m)
  {
    AddSame(k, k', r, r', m);
    AddSame(k + r, k' + r', c, c, m);
    assert r' + (k' + c) == k' + r' + c;
  }

  /** Round by round the two implementations stay in one residue class, whatever the signs. */
  lemma {:induction false} RoundsSame(f: Field, x: int, k: int, x': int, k': int, n: nat)
    requires n <= |f.c| && Same(x, x', f.p) && Same(k, k', f.p)
    ensures Same(Rounds(f, x, k, n), PlainRounds(f, x', k', n), f.p)
  {
    if n > 0 {
      var m, r, r' := f.p, Rounds(f, x, k, n - 1), PlainRounds(f, x', k', n - 1);
      RoundsSame(f, x, k, x', k', n - 1);
      RoundSame(k, k', r, r', f.c[n - 1], m);
      AddSame(k, k', x, x', m);
      var t := if n == 1 then k + x else k + r + f.c[n - 1];
      var t' := if n == 1 then x' + k' else r' + (k' + f.c[n - 1]);
      Pow7Same(t, t', m);
      ReducedSame(Pow7(t), Pow7(t'), m);
    }
  }

  /** On any integers the truncating hash is the plain hash up to a multiple of the modulus,
      and both depend on their inputs only through residues. */
  lemma HashSame(f: Field, x: int, k: int, x': int, k': int)
    requires Same(x, x', f.p) && Same(k, k', f.p)
    ensures Same(Hash(f, x, k), PlainHash(f, x', k'), f.p)
  {
    RoundsSame(f, x, k, x', k', |f.c|);
    AddSame(Rounds(f, x, k, |f.c|), PlainRounds(f, x', k', |f.c|), k, k', f.p);
    ReducedSame(Rounds(f, x, k, |f.c|) + k, PlainRounds(f, x', k', |f.c|) + k', f.p);
  }

  lemma {:induction false} MultiHashSame(f: Field, inputs: seq<int>, k: int, inputs': seq<int>, k': int)
    requires |inputs| == |inputs'| && Same(k, k', f.p)
    requires forall i :: 0 <= i < |inputs| ==> Same(inputs[i], inputs'[i], f.p)
    ensures Same(MultiHash(f, inputs, k), PlainMultiHash(f, inputs', k'), f.p)
  {
    if inputs != [] {
      var n, m := |inputs| - 1, f.p;
      MultiHashSame(f, inputs[..n], k, inputs'[..n], k');
      var temp, temp' := MultiHash(f, inputs[..n], k), PlainMultiHash(f, inputs'[..n], k');
      HashSame(f, inputs[n], temp, inputs'[n], temp');
      var h, h' := Hash(f, inputs[n], temp), PlainHash(f, inputs'[n], temp');
      AddSame(h, h', temp, temp', m);
      AddSame(h + temp, h' + temp', inputs[n], inputs'[n], m);
      ReducedSame(h + temp + inputs[n], h' + temp' + inputs'[n], m);
    }
  }

  lemma SquareNonNegative(t: int)
    ensures t * t >= 0
  {
  }

  lemma Pow7NonNegative(t: int)
    requires t >= 0
    ensures Pow7(t) >= 0
  {
    var t2 := t * t;
    SquareNonNegative(t);
    SquareNonNegative(t2);
    MulMonotone(0, t2 * t2, t2);
    MulMonotone(0, t2 * t2 * t2, t);
  }

  lemma {:induction false} RoundsAgree(f: Field, x: int, k: int, n: nat)
    requires x + k >= 0 && k >= 0 && n <= |f.c|
    ensures Rounds(f, x, k, n) == PlainRounds(f, x, k, n) >= 0
  {
    if n > 0 {
      RoundsAgree(f, x, k, n - 1);
      var t := if n == 1 then k + x else k + Rounds(f, x, k, n - 1) + f.c[n - 1];
      Pow7NonNegative(t);
      TruncModCongruent(Pow7(t), f.p);
    }
  }

  /** With a key that is not negative, on all inputs that it makes up for and so on all field
      elements, the two implementations return the same number. */
  lemma HashAgrees(f: Field, x: int, k: int)
    requires x + k >= 0 && k >= 0
    ensures Hash(f, x, k) == PlainHash(f, x, k) && 0 <= Hash(f, x, k) < f.p
  {
    RoundsAgree(f, x, k, |f.c|);
    TruncModCongruent(Rounds(f, x, k, |f.c|) + k, f.p);
  }

  /** No element is negative but perhaps the first, and the key makes up for that. */
  predicate NoneNegative(inputs: seq<int>, k: int) {
    k >= 0 && forall i :: 0 <= i < |inputs| ==> inputs[i] + (if i == 0 then k else 0) >= 0
  }

  lemma {:induction false} MultiHashAgrees(f: Field, inputs: seq<int>, k: int)
    requires NoneNegative(inputs, k)
    ensures MultiHash(f, inputs, k) == PlainMultiHash(f, inputs, k) >= 0
  {
    if inputs != [] {
      var n := |inputs| - 1;
      MultiHashAgrees(f, inputs[..n], k);
      var temp := MultiHash(f, inputs[..n], k);
      HashAgrees(f, inputs[n], temp);
      TruncModCongruent(Hash(f, inputs[n], temp) + temp + inputs[n], f.p);
    }
  }

  /** Off the non-negative inputs the two differ exactly when the truncating one comes out
      negative, and then by the modulus. */
  lemma HashAgreesExactly(f: Field, x: int, k: int)
    ensures Hash(f, x, k) == PlainHash(f, x, k) <==> Hash(f, x, k) >= 0
    ensures Hash(f, x, k) < 0 ==> Hash(f, x, k) + f.p == PlainHash(f, x, k)
  {
    HashSame(f, x, k, x, k);
    var h := Hash(f, x, k);
    if h >= 0 {
      DivModUnique(h, f.p, 0, h);
    } else {
      DivModUnique(h, f.p, -1, h + f.p);
    }
    ModSame(PlainHash(f, x, k), f.p);
    DivModUnique(PlainHash(f, x, k), f.p, 0, PlainHash(f, x, k));
  }

  /** The key alone often decides: from p - 1 up, or if that is less from p - 1 less the last
      round's constant, the two always agree; from 1 - p down they agree exactly on the inputs
      whose plain hash is 0. */
  lemma KeyDecides(f: Field, x: int, k: int)
    ensures k >= f.p - 1 ==> Hash(f, x, k) == PlainHash(f, x, k)
    ensures k >= 0 && |f.c| > 1 && k + f.c[|f.c| - 1] >= f.p - 1 ==> Hash(f, x, k) == PlainHash(f, x, k)
    ensures k <= 1 - f.p ==> (Hash(f, x, k) == PlainHash(f, x, k) <==> PlainHash(f, x, k) == 0)
  {
    HashAgreesExactly(f, x, k);
    var n := |f.c|;
    assert -f.p < Rounds(f, x, k, n) < f.p;
    if k >= 0 && n > 1 && k + f.c[n - 1] >= f.p - 1 {
      Pow7NonNegative(k + Rounds(f, x, k, n - 1) + f.c[n - 1]);
      assert Rounds(f, x, k, n) >= 0;
    }
  }

  /** For lists the last element decides, or with one element the element and the key together. */
  lemma {:induction false} LastDecides(f: Field, inputs: seq<int>, k: int)
    requires inputs != []
    ensures var m, p := MultiHash(f, inputs, k), PlainMultiHash(f, inputs, k);
      var last := inputs[|inputs| - 1] + if |inputs| == 1 then k else 0;
      var reach := if |inputs| == 1 then f.p - 1 else 2 * (f.p - 1);
      && (m == p <==> m >= 0) && (last >= reach ==> m == p) && (last <= -reach ==> (m == p <==> p == 0))
  {
    var n := |inputs| - 1;
    var m, temp := MultiHash(f, inputs, k), MultiHash(f, inputs[..n], k);
    MultiHashSame(f, inputs, k, inputs, k);
    assert -f.p < Hash(f, inputs[n], temp) < f.p;
    assert n > 0 ==> -f.p < temp < f.p;
    DivModUnique(m, f.p, if m >= 0 then 0 else -1, if m >= 0 then m else m + f.p);
    var p := PlainMultiHash(f, inputs, k);
    ModSame(p, f.p);
    DivModUnique(p, f.p, 0, p);
  }

  /** Over every modulus above 1, with any constants, one of the two fails already on the input 0
      with the key 1 - p: the hash of the number, or that of the list of it. */
  lemma {:induction false} OneOfTwoDiffers(f: Field)
    requires f.p > 1
    ensures Hash(f, 0, 1 - f.p) != PlainHash(f, 0, 1 - f.p)
      || MultiHash(f, [0], 1 - f.p) != PlainMultiHash(f, [0], 1 - f.p)
  {
    var k := 1 - f.p;
    KeyDecides(f, 0, k);
    LastDecides(f, [0], k);
    assert [0][..0] == [];
    if PlainHash(f, 0, k) == 0 {
      assert MultiHash(f, [0], k) == TruncMod(Hash(f, 0, k) + k + 0, f.p) == TruncMod(k, f.p);
      DivModUnique(-k, f.p, 0, -k);
    }
  }

  /** The field in use is one that the methods and the statements above take. */
  lemma InUse()
    ensures |BN254.c| == N_ROUNDS && BN254.p > 1
  {
  }
}
