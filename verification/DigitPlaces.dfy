/** Which part of a number every limb and every byte holds, and where it stands. */
module DigitPlaces {
  import opened JsBigInt
  import opened Powers
  import opened ByteCodecs

  lemma NegatedQuotient(y: int, b: nat)
    requires b > 0 && y >= 0
    ensures TruncDiv(-y, b) == -(y / b)
  {
    DivModUnique(0, b, 0, 0);
  }

  lemma {:induction false} TruncDivByProduct(x: int, b: nat, c: nat)
    requires b > 0 && c > 0
    ensures b * c > 0 && TruncDiv(x, b * c) == TruncDiv(TruncDiv(x, b), c)
  {
    if x >= 0 {
      DivTwice(x, b, c);
    } else {
      DivTwice(-x, b, c);
      NegatedQuotient(-x, b);
      NegatedQuotient(-x, b * c);
      NegatedQuotient(-x / b, c);
    }
  }

  /** Limb k is the remainder of the k-th quotient, so the lowest comes first. */
  lemma {:induction false} LimbAt(x: int, b: nat, n: nat, k: nat)
    requires b > 0 && k < n
    ensures Pow(b, k) > 0 && Limbs(x, b, n)[k] == TruncMod(TruncDiv(x, Pow(b, k)), b)
    decreases n
  {
    PowPositive(b, k);
    if k == 0 {
      assert Pow(b, 0) == 1 && TruncDiv(x, 1) == x;
    } else {
      PowPositive(b, k - 1);
      LimbAt(TruncDiv(x, b), b, n - 1, k - 1);
      TruncDivByProduct(x, b, Pow(b, k - 1));
      assert Limbs(x, b, n)[k] == Limbs(TruncDiv(x, b), b, n - 1)[k - 1];
    }
  }

  /** Byte k from the end is the k-th quotient reduced to 0 to 255, so the highest comes first. */
  lemma {:induction false} ByteAt(x: int, n: nat, k: nat)
    requires k < n
    ensures Pow(256, k) > 0 && BigEndian(x, n)[n - 1 - k] == TruncDiv(x, Pow(256, k)) % 256
    decreases n
  {
    PowPositive(256, k);
    if k == 0 {
      assert Pow(256, 0) == 1 && TruncDiv(x, 1) == x;
      TruncModCongruent(x, 256);
    } else {
      PowPositive(256, k - 1);
      ByteAt(TruncDiv(x, 256), n - 1, k - 1);
      TruncDivByProduct(x, 256, Pow(256, k - 1));
      assert BigEndian(x, n)[n - 1 - k] == BigEndian(TruncDiv(x, 256), n - 1)[n - 1 - k];
    }
  }

  /** A byte put in front counts for 256 to the number of bytes behind it. */
  lemma {:induction false} FirstByteCounts(b: byte, s: seq<byte>)
    ensures Value([b] + s) == b * Pow(256, |s|) + Value(s)
    decreases |s|
  {
    var t := [b] + s;
    if s == [] {
      assert t == [b] && t[..0] == [] && Pow(256, 0) == 1;
    } else {
      var init := s[..|s| - 1];
      FirstByteCounts(b, init);
      assert t[..|t| - 1] == [b] + init;
      assert b * Pow(256, |s|) == b * Pow(256, |s| - 1) * 256;
    }
  }

  lemma MovedUp(c: int, v: int, p: int, b: int)
    ensures (c + v * p) * b == c * b + v * (b * p)
  {
  }

  /** A limb put behind counts for the base to the number of limbs before it. */
  lemma {:induction false} LastLimbCounts(s: seq<int>, v: int, b: nat)
    ensures Combine(s + [v], b) == Combine(s, b) + v * Pow(b, |s|)
    decreases |s|
  {
    if s == [] {
      assert s + [v] == [v] && [v][1..] == [] && Pow(b, 0) == 1;
    } else {
      var rest := s[1..];
      LastLimbCounts(rest, v, b);
      assert (s + [v])[1..] == rest + [v];
      MovedUp(Combine(rest, b), v, Pow(b, |rest|), b);
    }
  }
}
