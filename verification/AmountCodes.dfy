/** Two ways to squeeze an amount into a few bits: a binary one with a 7-bit length field over a
    41-bit fraction, and a decimal one with a count of stripped zeros over a 35-bit number. */
module AmountCodes {
  import opened JsBigInt
  import opened Powers
  import opened NumberText

  // ---------- The binary code ----------

  /** The fraction takes 41 bits; from bit 127 on an amount is taken for signed, and the sign
      goes to bit 47. */
  function AmountToTxAmountV2(number: int): int {
    Signed(number, 41, 127, 47)
  }

  /** Shifts are multiplication and flooring division by powers of two. */
  function Sign(number: int, signFrom: nat, signTo: nat): int {
    PowPositive(2, signFrom);
    number / Pow(2, signFrom) * Pow(2, signTo)
  }

  function Signed(number: int, w: nat, signFrom: nat, signTo: nat): int {
    var sign := Sign(number, signFrom, signTo);
    sign + Code(number - sign, w)
  }

  /** The length field and the fraction of a number without its sign. */
  function Code(fraction: int, w: nat): int {
    var fractionLength := |Text(fraction, 2)|;
    var bias := 31;
    var exp := fractionLength - 28 + bias;
    PowPositive(2, fractionLength - 1);
    var modifiedFraction := TruncMod(fraction, Pow(2, fractionLength - 1));
    exp * Pow(2, w) + Aligned(modifiedFraction, fractionLength - 1, w)
  }

  /** A number of so many bits brought to w bits. */
  function Aligned(f: int, length: nat, w: nat): int {
    if length < w then f * Pow(2, w - length)
    else PowPositive(2, length - w); f / Pow(2, length - w)
  }

  /** What a code denotes: the fraction with its leading bit, at the place the length says. */
  function Decode(code: nat, w: nat): nat {
    PowPositive(2, w);
    var length := code / Pow(2, w) - 3;
    var fraction := Pow(2, w) + code % Pow(2, w);
    if length - 1 < w then PowPositive(2, w - (length - 1)); fraction / Pow(2, w - (length - 1))
    else fraction * Pow(2, length - 1 - w)
  }

  function Length(n: nat): nat {
    |Digits(n, 2)|
  }

  /** The weight of the last bit that is kept. */
  function Unit(n: nat, w: nat): (u: nat)
    ensures u > 0
  {
    PowPositive(2, if Length(n) - 1 < w then 0 else Length(n) - 1 - w);
    Pow(2, if Length(n) - 1 < w then 0 else Length(n) - 1 - w)
  }

  /** A number without the bits that are dropped. */
  function Kept(n: nat, w: nat): int {
    n - n % Unit(n, w)
  }

  lemma LengthUnique(n: nat, k: nat)
    requires k > 0 && n > 0 && Pow(2, k - 1) <= n < Pow(2, k)
    ensures Length(n) == k
  {
    TextLength(n, 2);
    if Length(n) < k { PowGrows(2, Length(n), k - 1); }
    if Length(n) > k { PowGrows(2, k, Length(n) - 1); }
  }

  lemma LengthGrows(m: nat, n: nat)
    requires 0 < m <= n
    ensures Length(m) <= Length(n)
  {
    TextLength(m, 2);
    TextLength(n, 2);
    if Length(n) < Length(m) { PowGrows(2, Length(n), Length(m) - 1); }
  }

  /** The leading w + 1 bits of a number, aligned so that the first is at place w. */
  function Scaled(n: nat, w: nat): int {
    Aligned(n, Length(n) - 1, w)
  }

  lemma ProductBetween(a: nat, n: nat, b: nat, p: nat)
    requires a <= n < b && p > 0
    ensures a * p <= n * p < b * p
  {
    MulMonotone(a, n, p);
    MulMonotone(n + 1, b, p);
    assert (n + 1) * p == n * p + p;
  }

  lemma QuotientBetween(a: nat, n: nat, b: nat, u: nat)
    requires u > 0 && a * u <= n < b * u
    ensures a <= n / u < b
  {
    var q := n / u;
    assert n == q * u + n % u;
    MulMonotone(q + 1, a, u);
    MulMonotone(b, q, u);
    assert (q + 1) * u == q * u + u;
  }

  lemma AlignedBetween(n: nat, k: nat, w: nat)
    requires Pow(2, k) <= n < Pow(2, k + 1)
    ensures Pow(2, w) <= Aligned(n, k, w) < Pow(2, w + 1)
  {
    if k < w {
      PowAdd(2, k, w - k);
      PowAdd(2, k + 1, w - k);
      PowPositive(2, w - k);
      ProductBetween(Pow(2, k), n, Pow(2, k + 1), Pow(2, w - k));
    } else {
      PowAdd(2, w, k - w);
      PowAdd(2, w + 1, k - w);
      PowPositive(2, k - w);
      QuotientBetween(Pow(2, w), n, Pow(2, w + 1), Pow(2, k - w));
    }
  }

  /** The fraction without its leading bit. */
  lemma LeadingBit(n: nat)
    requires n > 0
    ensures Length(n) > 0 && Pow(2, Length(n) - 1) > 0
    ensures TruncMod(n, Pow(2, Length(n) - 1)) == n - Pow(2, Length(n) - 1)
  {
    var p := Pow(2, Length(n) - 1);
    TextLength(n, 2);
    PowPositive(2, Length(n) - 1);
    assert Pow(2, Length(n)) == 2 * p;
    DivModUnique(n, p, 1, n - p);
  }

  lemma ShiftedLead(n: int, lead: int, u: int, top: int)
    requires u > 0 && lead == top * u
    ensures (n - lead) / u == n / u - top
  {
    var q := n / u;
    assert n == q * u + n % u;
    assert n - lead == (q - top) * u + n % u;
    DivModUnique(n - lead, u, q - top, n % u);
  }

  lemma ScaledLead(n: int, lead: int, p: int, top: int)
    requires lead * p == top
    ensures (n - lead) * p == n * p - top
  {
  }

  lemma {:induction false} ShiftedUp(n: int, k: nat, w: nat)
    requires k < w
    ensures Aligned(n - Pow(2, k), k, w) == Aligned(n, k, w) - Pow(2, w)
  {
    assert Pow(2, k) * Pow(2, w - k) == Pow(2, w) by { PowAdd(2, k, w - k); }
    ScaledLead(n, Pow(2, k), Pow(2, w - k), Pow(2, w));
  }

  lemma {:induction false} ShiftedDown(n: int, k: nat, w: nat)
    requires k >= w
    ensures Aligned(n - Pow(2, k), k, w) == Aligned(n, k, w) - Pow(2, w)
  {
    assert Pow(2, k) == Pow(2, w) * Pow(2, k - w) by { PowAdd(2, w, k - w); }
    assert Pow(2, k - w) > 0 by { PowPositive(2, k - w); }
    ShiftedLead(n, Pow(2, k), Pow(2, k - w), Pow(2, w));
  }

  /** Aligning commutes with taking the leading bit away. */
  lemma {:induction false} AlignedWithoutLead(n: int, k: nat, w: nat)
    ensures Aligned(n - Pow(2, k), k, w) == Aligned(n, k, w) - Pow(2, w)
  {
    if k < w { ShiftedUp(n, k, w); } else { ShiftedDown(n, k, w); }
  }

  lemma OneMore(a: int, b: int)
    ensures (a + 1) * b == a * b + b
  {
  }

  /** The code of a positive number: length plus three above, the kept bits below. */
  lemma {:induction false} CodeIs(n: nat, w: nat)
    requires n > 0
    ensures Code(n, w) == (Length(n) + 2) * Pow(2, w) + Scaled(n, w)
    ensures Pow(2, w) <= Scaled(n, w) < 2 * Pow(2, w)
  {
    var k := Length(n) - 1;
    assert Code(n, w) == (k + 4) * Pow(2, w) + Aligned(n - Pow(2, k), k, w) by { LeadingBit(n); }
    AlignedWithoutLead(n, k, w);
    OneMore(k + 3, Pow(2, w));
    assert Pow(2, w) <= Scaled(n, w) < Pow(2, w + 1) by {
      TextLength(n, 2);
      AlignedBetween(n, k, w);
    }
  }

  lemma {:induction false} CodeBetween(n: nat, w: nat)
    requires n > 0
    ensures Pow(2, w) > 0 && (Length(n) + 3) * Pow(2, w) <= Code(n, w) < (Length(n) + 4) * Pow(2, w)
  {
    CodeIs(n, w);
    PowPositive(2, w);
    OneMore(Length(n) + 2, Pow(2, w));
    OneMore(Length(n) + 3, Pow(2, w));
  }

  lemma {:induction false} FieldsOf(n: nat, w: nat)
    requires n > 0
    ensures Code(n, w) >= 0 && Pow(2, w) > 0
    ensures Code(n, w) / Pow(2, w) == Length(n) + 3 && Code(n, w) % Pow(2, w) == Scaled(n, w) - Pow(2, w)
  {
    var p := Pow(2, w);
    CodeIs(n, w);
    PowPositive(2, w);
    OneMore(Length(n) + 2, p);
    DivModUnique(Code(n, w), p, Length(n) + 3, Scaled(n, w) - p);
    MulMonotone(0, Length(n) + 2, p);
  }

  /** Undoing the alignment leaves the bits that were kept. */
  lemma {:induction false} AlignedBack(n: nat, k: nat, w: nat)
    ensures Pow(2, if k < w then w - k else k - w) > 0
    ensures k < w ==> Aligned(n, k, w) / Pow(2, w - k) == n
    ensures k >= w ==> Aligned(n, k, w) * Pow(2, k - w) == n - n % Pow(2, k - w)
  {
    PowPositive(2, if k < w then w - k else k - w);
    if k < w { TruncDivExact(n, Pow(2, w - k)); MulMonotone(0, n, Pow(2, w - k)); }
  }

  /** Decoding gives the number back without the bits that were dropped. */
  lemma CodeDecodes(n: nat, w: nat)
    requires n > 0
    ensures Code(n, w) >= 0 && Decode(Code(n, w), w) == Kept(n, w)
  {
    FieldsOf(n, w);
    AlignedBack(n, Length(n) - 1, w);
  }

  /** What is dropped is less than one part in 2^w, and nothing when w + 1 bits hold it all. */
  lemma KeptIsClose(n: nat, w: nat)
    requires n > 0
    ensures 0 <= n - Kept(n, w) && (n - Kept(n, w)) * Pow(2, w) < n
    ensures n < Pow(2, w + 1) ==> Kept(n, w) == n
  {
    var k := Length(n) - 1;
    TextLength(n, 2);
    if k < w {
      assert Unit(n, w) == 1;
    } else {
      var u := Unit(n, w);
      assert u * Pow(2, w) == Pow(2, k) by { PowAdd(2, k - w, w); }
      PowPositive(2, w);
      ProductBetween(0, n % u, u, Pow(2, w));
      if n < Pow(2, w + 1) && k > w { PowGrows(2, w + 1, k); }
    }
  }

  lemma AlignedGrows(m: int, n: int, k: nat, w: nat)
    requires m <= n
    ensures Aligned(m, k, w) <= Aligned(n, k, w)
  {
    if k < w {
      MulMonotone(m, n, Pow(2, w - k));
    } else {
      var u := Pow(2, k - w);
      PowPositive(2, k - w);
      assert m == m / u * u + m % u && n == n / u * u + n % u;
      MulMonotone(n / u + 1, m / u, u);
      OneMore(n / u, u);
    }
  }

  /** A larger amount never has a smaller code. */
  lemma CodeGrows(m: nat, n: nat, w: nat)
    requires 0 < m <= n
    ensures Code(m, w) <= Code(n, w)
  {
    LengthGrows(m, n);
    if Length(m) == Length(n) {
      CodeIs(m, w);
      CodeIs(n, w);
      AlignedGrows(m, n, Length(m) - 1, w);
    } else {
      CodeBetween(m, w);
      CodeBetween(n, w);
      MulMonotone(Length(m) + 4, Length(n) + 3, Pow(2, w));
    }
  }

  lemma {:induction false} LengthAtMost(n: nat, k: nat)
    requires n > 0
    ensures n < Pow(2, k) <==> Length(n) <= k
  {
    TextLength(n, 2);
    if Length(n) <= k { PowGrows(2, Length(n), k); } else { PowGrows(2, k, Length(n) - 1); }
  }

  /** The code has its place below a power of two exactly when the amount has. */
  lemma {:induction false} CodeFits(n: nat, k: nat, w: nat)
    requires n > 0
    ensures Code(n, w) < (k + 4) * Pow(2, w) <==> n < Pow(2, k)
  {
    LengthAtMost(n, k);
    CodeBetween(n, w);
    MulMonotone(Length(n) + 4, k + 4, Pow(2, w));
    MulMonotone(k + 4, Length(n) + 3, Pow(2, w));
  }

  /** What a code denotes is as long as the amount, and has its leading bits. */
  lemma KeptAligned(n: nat, w: nat)
    requires n > 0
    ensures var d := Kept(n, w);
      d > 0 && Length(d) == Length(n) && Aligned(d, Length(n) - 1, w) == Aligned(n, Length(n) - 1, w)
  {
    if Length(n) > w {
      KeptLength(n, w);
      DivModUnique(Kept(n, w), Unit(n, w), n / Unit(n, w), 0);
    }
  }

  /** What is kept of a long number is a whole number of units, as long as the number itself. */
  lemma KeptLength(n: nat, w: nat)
    requires n > 0 && Length(n) > w
    ensures var d, u := Kept(n, w), Unit(n, w);
      d == n / u * u && d > 0 && Length(d) == Length(n)
  {
    var k, u := Length(n) - 1, Unit(n, w);
    var q := n / u;
    assert n == q * u + n % u;
    assert Pow(2, w) <= q by {
      TextLength(n, 2);
      AlignedBetween(n, k, w);
    }
    assert Pow(2, k) == Pow(2, w) * u by { PowAdd(2, w, k - w); }
    MulMonotone(Pow(2, w), q, u);
    TextLength(n, 2);
    PowPositive(2, k);
    LengthUnique(q * u, k + 1);
  }

  /** What a code denotes has that code again. */
  lemma CodeOfKept(n: nat, w: nat)
    requires n > 0
    ensures Kept(n, w) > 0 && Code(Kept(n, w), w) == Code(n, w)
  {
    KeptAligned(n, w);
    CodeIs(Kept(n, w), w);
    CodeIs(n, w);
  }

  /** Two amounts share a code exactly when they differ only in bits that are dropped. */
  lemma SameCode(m: nat, n: nat, w: nat)
    requires m > 0 && n > 0
    ensures Code(m, w) == Code(n, w) <==> Kept(m, w) == Kept(n, w)
  {
    CodeDecodes(m, w);
    CodeDecodes(n, w);
    CodeOfKept(m, w);
    CodeOfKept(n, w);
  }

  lemma {:induction false} SignIsZero(n: nat, signFrom: nat, signTo: nat)
    requires n < Pow(2, signFrom)
    ensures Sign(n, signFrom, signTo) == 0
  {
    DivModUnique(n, Pow(2, signFrom), 0, n);
  }

  lemma {:induction false} NoSign(n: nat, w: nat, signFrom: nat, signTo: nat)
    requires n < Pow(2, signFrom)
    ensures Signed(n, w, signFrom, signTo) == Code(n, w)
  {
    SignIsZero(n, signFrom, signTo);
  }

  lemma HalfRemains(n: nat, top: nat, bit: nat)
    requires 0 < top <= n && 2 * bit <= top
    ensures n / top * bit >= 0 && 2 * (n - n / top * bit) >= top
  {
    var s := n / top;
    assert n == s * top + n % top;
    MulMonotone(2 * bit, top, s);
    MulMonotone(0, bit, s);
    assert 2 * bit * s == 2 * (s * bit);
  }

  /** Past the sign bit the length field overflows. */
  lemma {:induction false} SignedTooLong(n: nat, k: nat, w: nat, signFrom: nat, signTo: nat)
    requires signTo < signFrom && k < signFrom && n >= Pow(2, signFrom)
    ensures Signed(n, w, signFrom, signTo) >= (k + 4) * Pow(2, w)
  {
    var top, bit := Pow(2, signFrom), Pow(2, signTo);
    PowPositive(2, signFrom);
    PowPositive(2, signFrom - 1);
    PowGrows(2, signTo + 1, signFrom);
    HalfRemains(n, top, bit);
    var fraction := n - n / top * bit;
    LengthAtMost(fraction, signFrom - 1);
    CodeBetween(fraction, w);
    MulMonotone(k + 4, Length(fraction) + 3, Pow(2, w));
  }

  /** The binary code of an amount decodes to that amount up to one part in 2^41 from below,
      and to the amount itself when it has at most 42 bits. */
  lemma AmountV2Decodes(n: nat)
    requires 0 < n < Pow(2, 127)
    ensures AmountToTxAmountV2(n) >= 0
    ensures var d := Decode(AmountToTxAmountV2(n), 41);
      d == Kept(n, 41) && 0 <= n - d && (n - d) * Pow(2, 41) < n && (n < Pow(2, 42) ==> d == n)
  {
    NoSign(n, 41, 127, 47);
    CodeDecodes(n, 41);
    KeptIsClose(n, 41);
  }

  lemma {:induction false} CodeOfZero(w: nat)
    ensures Code(0, w) == Code(1, w) == 4 * Pow(2, w)
  {
    assert Length(0) == Length(1) == 1 && Pow(2, 0) == 1;
    assert TruncMod(0, 1) == 0 && TruncMod(1, 1) == 0;
    assert Aligned(0, 0, w) == 0;
  }

  /** The amounts 0 and 1 share a code. */
  lemma {:induction false} SmallCode(n: nat, w: nat, signFrom: nat, signTo: nat)
    requires n <= 1 && signFrom > 0
    ensures Signed(n, w, signFrom, signTo) == 4 * Pow(2, w)
  {
    PowPositive(2, signFrom - 1);
    SignIsZero(n, signFrom, signTo);
    CodeOfZero(w);
  }

  /** Codes follow the order of amounts; they coincide for 0 and 1, and otherwise exactly for
      amounts that differ in dropped bits only. */
  lemma AmountV2Order(m: nat, n: nat)
    requires m <= n < Pow(2, 127)
    ensures AmountToTxAmountV2(m) <= AmountToTxAmountV2(n)
    ensures m == 0 && n == 1 ==> AmountToTxAmountV2(m) == AmountToTxAmountV2(n)
    ensures m > 0 ==> (AmountToTxAmountV2(m) == AmountToTxAmountV2(n) <==> Kept(m, 41) == Kept(n, 41))
  {
    NoSign(m, 41, 127, 47);
    NoSign(n, 41, 127, 47);
    if m > 0 {
      CodeGrows(m, n, 41);
      SameCode(m, n, 41);
    } else if n > 0 {
      SmallCode(0, 41, 127, 47);
      SmallCode(1, 41, 127, 47);
      NoSign(1, 41, 127, 47);
      CodeGrows(1, n, 41);
    }
  }

  lemma {:induction false} ZeroFits(k: nat, w: nat, signFrom: nat, signTo: nat)
    requires 0 < k && 0 < signFrom
    ensures Signed(0, w, signFrom, signTo) < (k + 4) * Pow(2, w)
  {
    SmallCode(0, w, signFrom, signTo);
    PowPositive(2, w);
    OneMore(4, Pow(2, w));
    MulMonotone(5, k + 4, Pow(2, w));
  }

  lemma {:induction false} SignedFits(n: nat, k: nat, w: nat, signFrom: nat, signTo: nat)
    requires signTo < signFrom && 0 < k < signFrom
    ensures Signed(n, w, signFrom, signTo) < (k + 4) * Pow(2, w) <==> n < Pow(2, k)
  {
    PowPositive(2, k);
    if n == 0 {
      ZeroFits(k, w, signFrom, signTo);
    } else if n < Pow(2, signFrom) {
      NoSign(n, w, signFrom, signTo);
      CodeFits(n, k, w);
    } else {
      SignedTooLong(n, k, w, signFrom, signTo);
      PowGrows(2, k, signFrom);
    }
  }

  /** The code takes 48 bits exactly for amounts of at most 124 bits. */
  lemma AmountV2Fits(n: nat)
    ensures AmountToTxAmountV2(n) < Pow(2, 48) <==> n < Pow(2, 124)
  {
    SignedFits(n, 124, 41, 127, 47);
    PowAdd(2, 7, 41);
    assert Pow(2, 7) == 128;
  }

  // ---------- The decimal code ----------

  function Zeros(n: int): nat
    requires n != 0
    decreases if n < 0 then -n else n
  {
    if TruncMod(n, 10) == 0 then 1 + Zeros(TruncDiv(n, 10)) else 0
  }

  /** A number without the zeros at its end. */
  function Stripped(n: int): (m: int)
    requires n != 0
    ensures m != 0 && TruncMod(m, 10) != 0
    decreases if n < 0 then -n else n
  {
    if TruncMod(n, 10) == 0 then Stripped(TruncDiv(n, 10)) else n
  }

  /** The stripped number in w bits, the count of zeros above them. */
  function CodeV3(n: int, w: nat): int {
    if n == 0 then 0 else Stripped(n) + Zeros(n) * Pow(2, w)
  }

  method AmountToTxAmountV3_40bit(number: int) returns (code: int)
    ensures code == CodeV3(number, 35)
  {
    var val_exp := 0;
    if number == 0 {
      return 0;
    }
    var n := number;
    while TruncMod(n, 10) == 0
      invariant n != 0 && val_exp >= 0
      invariant Stripped(n) == Stripped(number) && Zeros(n) + val_exp == Zeros(number)
      decreases if n < 0 then -n else n
    {
      n := TruncDiv(n, 10);
      val_exp := val_exp + 1;
    }
    code := n + val_exp * Pow(2, 35);
  }

  lemma OneMoreZero(m: int, e: nat)
    ensures WithZeros(m, 0) == m && WithZeros(m, e + 1) == WithZeros(m, e) * 10
  {
    assert Pow(10, 0) == 1 && Pow(10, e + 1) == 10 * Pow(10, e);
    assert m * (10 * Pow(10, e)) == m * Pow(10, e) * 10;
  }

  lemma ZerosAgain(m: int, e: nat, f: nat)
    ensures WithZeros(m, e + f) == WithZeros(WithZeros(m, e), f)
  {
    PowAdd(10, e, f);
    assert m * (Pow(10, e) * Pow(10, f)) == m * Pow(10, e) * Pow(10, f);
  }

  lemma WithZerosInjective(a: int, b: int, e: nat)
    ensures WithZeros(a, e) == WithZeros(b, e) <==> a == b
  {
    var t := Pow(10, e);
    PowPositive(10, e);
    MulMonotone(a + 1, b, t);
    MulMonotone(b + 1, a, t);
    assert (a + 1) * t == a * t + t && (b + 1) * t == b * t + t;
  }

  /** The stripped number and the count of zeros make up the amount. */
  lemma {:induction false} StrippedWithZeros(n: int)
    requires n != 0
    ensures n == WithZeros(Stripped(n), Zeros(n))
    decreases if n < 0 then -n else n
  {
    OneMoreZero(Stripped(n), if Zeros(n) == 0 then 0 else Zeros(n) - 1);
    if TruncMod(n, 10) == 0 { StrippedWithZeros(TruncDiv(n, 10)); }
  }

  /** No other number not ending in zero does, with any count of zeros. */
  lemma {:induction false} StrippedUnique(m: int, e: nat)
    requires m != 0 && TruncMod(m, 10) != 0
    ensures WithZeros(m, e) != 0 && Stripped(WithZeros(m, e)) == m && Zeros(WithZeros(m, e)) == e
  {
    if e == 0 {
      OneMoreZero(m, 0);
    } else {
      OneMoreZero(m, e - 1);
      StrippedUnique(m, e - 1);
      TruncDivExact(WithZeros(m, e - 1), 10);
    }
  }

  function DecodeV3(code: nat, w: nat): int {
    PowPositive(2, w);
    WithZeros(code % Pow(2, w), code / Pow(2, w))
  }

  function WithZeros(m: int, e: nat): int {
    m * Pow(10, e)
  }

  lemma EvenHalf(a: nat, r: nat)
    requires a % 2 == 1
    ensures (a * r) % 2 == r % 2
  {
    var b, s := a / 2, r / 2;
    assert a == 2 * b + 1 && r == 2 * s + r % 2;
    assert a * r == 2 * (b * r + s) + r % 2;
  }

  lemma HalfProduct(a: nat, r: nat, x: nat)
    requires r % 2 == 0 && a * r == 2 * x
    ensures a * (r / 2) == x
  {
    var h := r / 2;
    assert r == 2 * h;
    assert a * r == 2 * (a * h);
  }

  lemma DoubledPower(x: nat, k: nat)
    requires k > 0
    ensures x * Pow(2, k) == 2 * (x * Pow(2, k - 1))
  {
  }

  /** Powers of two divide a product only through its even factor. */
  lemma {:induction false} TwosPassOddFactor(a: nat, r: nat, q: nat, k: nat) returns (s: nat)
    requires a % 2 == 1 && a * r == q * Pow(2, k)
    ensures r == s * Pow(2, k)
  {
    if k == 0 {
      assert Pow(2, 0) == 1;
      s := r;
    } else {
      DoubledPower(q, k);
      EvenHalf(a, r);
      HalfProduct(a, r, q * Pow(2, k - 1));
      s := TwosPassOddFactor(a, r / 2, q, k - 1);
      DoubledPower(s, k);
    }
  }

  lemma {:induction false} EvenPower(b: nat, n: nat)
    requires n > 0 && b > 0 && b % 2 == 0
    ensures Pow(b, n) % 2 == 0 && Pow(b, n) > 0
  {
    PowPositive(b, n);
    var h, t := b / 2, Pow(b, n - 1);
    assert b * t == 2 * (h * t);
  }

  lemma {:induction false} OnlyZeroLeft(a: nat, r: nat, q: nat, w: nat)
    requires a % 2 == 1 && a * r == q * Pow(2, w) && r < Pow(2, w)
    ensures r == 0 && q == 0
  {
    var s := TwosPassOddFactor(a, r, q, w);
    MulMonotone(1, s, Pow(2, w));
    MulMonotone(1, q, Pow(2, w));
  }

  lemma TimesLessOne(t: int, r: int)
    ensures (t - 1) * r == r * t - r
  {
  }

  lemma QuotientPositive(m: nat, p: nat)
    requires 0 < p <= m
    ensures m / p > 0
  {
    assert m == m / p * p + m % p;
  }

  lemma {:induction false} EvenFactorLost(m: nat, t: nat, w: nat)
    requires m >= Pow(2, w) > 0 && t > 0 && t % 2 == 0
    ensures m % Pow(2, w) * t != m
  {
    var p := Pow(2, w);
    var q, r := m / p, m % p;
    assert m == q * p + r;
    QuotientPositive(m, p);
    TimesLessOne(t, r);
    if r * t == m { OnlyZeroLeft(t - 1, r, q, w); }
  }

  /** A number that overflows its field is never denoted by what is left of it with the
      overflow counted as zeros. */
  lemma {:induction false} OverflowChanges(m: nat, w: nat)
    requires m >= Pow(2, w) > 0
    ensures WithZeros(m % Pow(2, w), m / Pow(2, w)) != m
  {
    var q := m / Pow(2, w);
    QuotientPositive(m, Pow(2, w));
    EvenPower(10, q);
    EvenFactorLost(m, Pow(10, q), w);
  }

  lemma {:induction false} StrippedPositive(n: int)
    requires n > 0
    ensures Stripped(n) > 0
    decreases n
  {
    if TruncMod(n, 10) == 0 { StrippedPositive(TruncDiv(n, 10)); }
  }

  lemma FieldsOfV3(m: nat, e: nat, p: nat)
    requires p > 0
    ensures m / p >= 0 && (m + e * p) / p == e + m / p && (m + e * p) % p == m % p
  {
    assert m == m / p * p + m % p;
    assert m + e * p == (e + m / p) * p + m % p;
    DivModUnique(m + e * p, p, e + m / p, m % p);
  }

  /** A number alone in its field is denoted exactly when it does not overflow. */
  lemma {:induction false} FieldExact(m: nat, w: nat)
    ensures Pow(2, w) > 0
    ensures WithZeros(m % Pow(2, w), m / Pow(2, w)) == m <==> m < Pow(2, w)
  {
    PowPositive(2, w);
    if m < Pow(2, w) {
      DivModUnique(m, Pow(2, w), 0, m);
      OneMoreZero(m, 0);
    } else {
      OverflowChanges(m, w);
    }
  }

  /** The decimal code of an amount decodes to the amount exactly when the stripped number
      has its place in w bits. */
  lemma {:induction false} V3DecodesExactly(n: nat, w: nat)
    ensures CodeV3(n, w) >= 0
    ensures DecodeV3(CodeV3(n, w), w) == n <==> n == 0 || Stripped(n) < Pow(2, w)
  {
    FieldExact(0, w);
    if n > 0 {
      var m, e, p := Stripped(n), Zeros(n), Pow(2, w);
      StrippedPositive(n);
      StrippedWithZeros(n);
      MulMonotone(0, e, p);
      FieldsOfV3(m, e, p);
      FieldExact(m, w);
      ZerosAgain(m % p, m / p, e);
      WithZerosInjective(WithZeros(m % p, m / p), m, e);
    }
  }

  /** On such amounts the code takes 40 bits exactly for fewer than 32 zeros. */
  lemma {:induction false} AmountV3FitsExactly(n: nat)
    requires n > 0 && Stripped(n) < Pow(2, 35)
    ensures CodeV3(n, 35) < Pow(2, 40) <==> Zeros(n) < 32
  {
    StrippedPositive(n);
    V3Fits(Stripped(n), Zeros(n), 32, Pow(2, 35));
    PowAdd(2, 5, 35);
    assert Pow(2, 5) == 32;
  }

  lemma V3Fits(m: nat, e: nat, k: nat, p: nat)
    requires m < p
    ensures m + e * p < k * p <==> e < k
  {
    MulMonotone(e + 1, k, p);
    MulMonotone(k, e, p);
    OneMore(e, p);
  }

  /** On such amounts the code is injective. */
  lemma {:induction false} AmountV3Injective(m: nat, n: nat, w: nat)
    requires (m == 0 || Stripped(m) < Pow(2, w)) && (n == 0 || Stripped(n) < Pow(2, w))
    requires CodeV3(m, w) == CodeV3(n, w)
    ensures m == n
  {
    V3DecodesExactly(m, w);
    V3DecodesExactly(n, w);
  }

  /** Beyond the field two amounts can share a code. */
  lemma {:induction false} AmountV3Collides(w: nat)
    requires w > 0
    ensures CodeV3(10, w) == CodeV3(Pow(2, w) + 1, w)
  {
    assert TruncMod(10, 10) == 0 && TruncDiv(10, 10) == 1 && TruncMod(1, 10) == 1;
    assert Stripped(10) == Stripped(1) == 1 && Zeros(10) == 1 + Zeros(1) == 1;
    var h := Pow(2, w - 1);
    assert TruncMod(2 * h + 1, 10) != 0;
  }
}
