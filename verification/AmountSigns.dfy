/** The amount codes on all integers: what the sign contributes to the binary one, what becomes
    of a fraction that is negative, and what the decimal one is. */
module AmountSigns {
  import opened JsBigInt
  import opened Powers
  import opened NumberText
  import opened AmountCodes

  /** From 2^127 on, and below 0, the quotient by 2^127 is moved to bit 47, and what the amount
      exceeds it by is encoded below. */
  lemma {:induction false} SignedExactly(n: int, s: int)
    requires s * Pow(2, 127) <= n < (s + 1) * Pow(2, 127)
    ensures AmountToTxAmountV2(n) == s * Pow(2, 47) + Code(n - s * Pow(2, 47), 41)
  {
    SignIs(n, s, 127, 47);
  }

  lemma {:induction false} SignIs(n: int, s: int, signFrom: nat, signTo: nat)
    requires s * Pow(2, signFrom) <= n < (s + 1) * Pow(2, signFrom)
    ensures Sign(n, signFrom, signTo) == s * Pow(2, signTo)
  {
    PowPositive(2, signFrom);
    OneMore(s, Pow(2, signFrom));
    DivModUnique(n, Pow(2, signFrom), s, n - s * Pow(2, signFrom));
  }

  /** The least number whose product with the divisor reaches the dividend. */
  predicate IsCeiling(c: int, f: int, u: int) {
    (c - 1) * u < f <= c * u
  }

  lemma CeilingOfNegative(f: int, u: int)
    requires u > 0
    ensures IsCeiling(-(-f / u), f, u)
  {
    var q := -f / u;
    assert -f == q * u + -f % u;
    assert -q * u == -(q * u) && (-q - 1) * u == -(q * u) - u;
  }

  lemma {:induction false} BelowItsLength(f: int)
    requires f >= 0
    ensures f < Pow(2, Length(f)) && TruncMod(-f, Pow(2, Length(f))) == -f
  {
    TextLength(f, 2);
    DivModUnique(f, Pow(2, Length(f)), 0, f);
  }

  /** The minus counts as one more bit, and the whole fraction is taken off: its bits as they
      stand when they fit the field, rounded up to what the field holds when they do not. */
  lemma {:induction false} CodeOfNegative(f: int, w: nat)
    requires f > 0
    ensures Length(f) < w ==> Code(-f, w) == (Length(f) + 4) * Pow(2, w) - f * Pow(2, w - Length(f))
    ensures Length(f) >= w ==>
      IsCeiling((Length(f) + 4) * Pow(2, w) - Code(-f, w), f, Pow(2, Length(f) - w))
  {
    var k := Length(f);
    assert |Text(-f, 2)| == k + 1;
    BelowItsLength(f);
    assert Code(-f, w) == (k + 4) * Pow(2, w) + Aligned(-f, k, w);
    if k >= w {
      PowPositive(2, k - w);
      CeilingOfNegative(f, Pow(2, k - w));
    } else {
      Negated(f, Pow(2, w - k));
    }
  }

  lemma Negated(a: int, b: int)
    ensures -a * b == -(a * b)
  {
  }

  /** A number that does not end in 0, with zeros after it, has the code of the number alone with
      the count of zeros above it, negative or not. */
  lemma {:induction false} DecimalCodeOf(m: int, e: nat, w: nat)
    requires TruncMod(m, 10) != 0
    ensures CodeV3(m * Pow(10, e), w) == m + e * Pow(2, w) && CodeV3(0, w) == 0
  {
    assert m * Pow(10, e) == WithZeros(m, e);
    StrippedUnique(m, e);
  }
}
