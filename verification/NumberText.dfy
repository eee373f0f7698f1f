/** The text of integers in bases up to 16, as BigInt.toString writes it. */
module NumberText {
  import opened JsBigInt
  import opened Powers

  type Base = b: nat | 2 <= b <= 16 witness 2

  function Digit(d: nat): char
    requires d < 16
  {
    "0123456789abcdef"[d]
  }

  predicate IsDigit(c: char) {
    '0' <= c <= '9' || 'a' <= c <= 'f'
  }

  function DigitValue(c: char): (d: nat)
    requires IsDigit(c)
    ensures d < 16
  {
    if c <= '9' then (c - '0') as int else (c - 'a') as int + 10
  }

  lemma DigitIs(d: nat)
    requires d < 16
    ensures IsDigit(Digit(d)) && DigitValue(Digit(d)) == d
  {
  }

  lemma DivShrinks(n: nat, b: Base)
    ensures n / b * b + n % b == n && (n > 0 ==> n / b < n)
  {
    MulMonotone(1, n / b, b - 1);
  }

  function Digits(n: nat, b: Base): (s: string)
    ensures s != []
    decreases n
  {
    DivShrinks(n, b);
    if n < b then [Digit(n)] else Digits(n / b, b) + [Digit(n % b)]
  }

  function Text(n: int, b: Base): (s: string)
    ensures s != []
  {
    if n < 0 then "-" + Digits(-n, b) else Digits(n, b)
  }

  predicate AllDigits(s: string) {
    forall i :: 0 <= i < |s| ==> IsDigit(s[i])
  }

  /** The number a text of digits denotes. */
  function Read(s: string, b: Base): nat
    requires AllDigits(s)
  {
    if s == [] then 0 else Read(s[..|s| - 1], b) * b + DigitValue(s[|s| - 1])
  }

  lemma {:induction false} DigitsAreDigits(n: nat, b: Base)
    ensures AllDigits(Digits(n, b))
    decreases n
  {
    DivShrinks(n, b);
    DigitIs(n % b);
    if n >= b { DigitsAreDigits(n / b, b); }
  }

  /** Reading a number's text gives the number back. */
  lemma {:induction false} ReadDigits(n: nat, b: Base)
    ensures AllDigits(Digits(n, b)) && Read(Digits(n, b), b) == n
    decreases n
  {
    DivShrinks(n, b);
    DigitsAreDigits(n, b);
    DigitIs(n % b);
    if n < b {
      DigitIs(n);
      assert Digits(n, b)[..0] == [];
    } else {
      ReadDigits(n / b, b);
      var s := Digits(n, b);
      assert s[..|s| - 1] == Digits(n / b, b);
    }
  }

  lemma TextInjective(m: int, n: int, b: Base)
    requires Text(m, b) == Text(n, b)
    ensures m == n
  {
    ReadDigits(if m < 0 then -m else m, b);
    ReadDigits(if n < 0 then -n else n, b);
    assert (m < 0) == (Text(m, b)[0] == '-');
    assert (n < 0) == (Text(n, b)[0] == '-');
    if m < 0 {
      assert Text(m, b)[1..] == Digits(-m, b) && Text(n, b)[1..] == Digits(-n, b);
    }
  }

  lemma QuotientBelow(n: nat, b: Base, p: nat)
    ensures n / b < p ==> n < b * p
    ensures p <= n / b ==> b * p <= n
  {
    DivShrinks(n, b);
    MulMonotone(n / b + 1, p, b);
    MulMonotone(p, n / b, b);
    assert (n / b + 1) * b == n / b * b + b;
  }

  /** The length of a text places the number between two powers of the base. */
  lemma {:induction false} TextLength(n: nat, b: Base)
    ensures n < Pow(b, |Digits(n, b)|)
    ensures n > 0 ==> Pow(b, |Digits(n, b)| - 1) <= n
    decreases n
  {
    DivShrinks(n, b);
    if n < b {
      assert Pow(b, 1) == b * Pow(b, 0) == b;
    } else {
      var k := |Digits(n / b, b)|;
      TextLength(n / b, b);
      MulMonotone(n / b + 1, 1, b);
      QuotientBelow(n, b, Pow(b, k));
      QuotientBelow(n, b, Pow(b, k - 1));
    }
  }
}
