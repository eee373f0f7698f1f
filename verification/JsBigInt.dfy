/** Division of JavaScript big integers: both operators truncate toward zero, so that the
    remainder takes the sign of the dividend. */
module JsBigInt {

  function TruncDiv(a: int, b: int): int
    requires b > 0
  {
    if a >= 0 then a / b else -((-a) / b)
  }

  function TruncMod(a: int, b: int): (r: int)
    requires b > 0
    ensures a == TruncDiv(a, b) * b + r
    ensures -b < r < b && (a >= 0 ==> r >= 0) && (a <= 0 ==> r <= 0)
  {
    if a >= 0 then a % b else -((-a) % b)
  }

  lemma MulMonotone(x: int, y: int, b: int)
    requires b >= 0
    ensures x <= y ==> x * b <= y * b
  {
    if x <= y {
      var d := y - x;
      assert d * b >= 0;
      assert y * b == x * b + d * b;
    }
  }

  /** Quotient and remainder are determined by their equation. */
  lemma DivModUnique(a: int, b: int, q: int, r: int)
    requires b > 0 && a == q * b + r && 0 <= r < b
    ensures a / b == q && a % b == r
  {
    var d := a / b;
    assert a == d * b + a % b;
    MulMonotone(d + 1, q, b);
    MulMonotone(q + 1, d, b);
    assert (d + 1) * b == d * b + b && (q + 1) * b == q * b + b;
  }

  lemma TruncDivExact(q: int, b: int)
    requires b > 0
    ensures TruncDiv(q * b, b) == q
  {
    if q >= 0 {
      MulMonotone(0, q, b);
      DivModUnique(q * b, b, q, 0);
    } else {
      MulMonotone(q, -1, b);
      assert -(q * b) == (-q) * b;
      DivModUnique((-q) * b, b, -q, 0);
    }
  }

  /** A quotient is at least any integer whose product with the divisor the dividend reaches. */
  lemma TruncDivAtLeast(a: int, b: int, q: int)
    requires b > 0 && a >= q * b
    ensures TruncDiv(a, b) >= q
  {
    var d, r := TruncDiv(a, b), TruncMod(a, b);
    MulMonotone(d + 1, q, b);
    assert (d + 1) * b == d * b + b;
  }

  /** Adding a multiple of the modulus changes nothing. */
  lemma ModShift(x: int, q: int, m: int)
    requires m > 0
    ensures (x + q * m) % m == x % m
  {
    assert x == (x / m) * m + x % m;
    assert x + q * m == (x / m + q) * m + x % m;
    DivModUnique(x + q * m, m, x / m + q, x % m);
  }

  /** The truncating remainder is in the residue class of its dividend, and is the
      mathematical remainder when the dividend is not negative. */
  lemma TruncModCongruent(a: int, b: int)
    requires b > 0
    ensures TruncMod(a, b) % b == a % b
    ensures a >= 0 ==> TruncMod(a, b) == a % b
  {
    ModShift(TruncMod(a, b), TruncDiv(a, b), b);
  }
}
