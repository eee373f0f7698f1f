/** Powers of a natural base, and what division by them does. */
module Powers {
  import opened JsBigInt

  function Pow(b: nat, n: nat): nat {
    if n == 0 then 1 else b * Pow(b, n - 1)
  }

  lemma {:induction false} PowPositive(b: nat, n: nat)
    ensures b > 0 ==> Pow(b, n) > 0
  {
    if n > 0 {
      PowPositive(b, n - 1);
      MulMonotone(1, Pow(b, n - 1), b);
    }
  }

  lemma {:induction false} PowAdd(b: nat, m: nat, n: nat)
    ensures Pow(b, m + n) == Pow(b, m) * Pow(b, n)
  {
    if m > 0 {
      PowAdd(b, m - 1, n);
      assert Pow(b, m + n) == b * (Pow(b, m - 1) * Pow(b, n)) == (b * Pow(b, m - 1)) * Pow(b, n);
    }
  }

  lemma {:induction false} PowPow(b: nat, m: nat, n: nat)
    ensures Pow(Pow(b, m), n) == Pow(b, m * n)
  {
    if n > 0 {
      PowPow(b, m, n - 1);
      PowAdd(b, m, m * (n - 1));
      assert m * n == m + m * (n - 1);
    }
  }

  lemma {:induction false} PowGrows(b: nat, m: nat, n: nat)
    requires b > 0 && m <= n
    ensures Pow(b, m) <= Pow(b, n)
  {
    PowAdd(b, n - m, m);
    PowPositive(b, n - m);
    MulMonotone(1, Pow(b, n - m), Pow(b, m));
  }

  lemma Regroup(x: int, b: int, c: int, q: int, r: int, q': int, r': int)
    requires x == q * b + r && q == q' * c + r'
    ensures x == q' * (b * c) + (r' * b + r)
  {
    assert q * b == q' * c * b + r' * b;
    assert q' * c * b == q' * (b * c);
  }

  /** Dividing twice is dividing by the product, and the two remainders make up the one. */
  lemma DivTwice(x: nat, b: nat, c: nat)
    requires b > 0 && c > 0
    ensures b * c > 0 && x / (b * c) == x / b / c
    ensures x % (b * c) == x / b % c * b + x % b
  {
    var q := x / b;
    Regroup(x, b, c, q, x % b, q / c, q % c);
    MulMonotone(0, q % c, b);
    MulMonotone(q % c, c - 1, b);
    MulMonotone(1, c, b);
    assert (c - 1) * b == b * c - b;
    DivModUnique(x, b * c, q / c, q % c * b + x % b);
  }
}
