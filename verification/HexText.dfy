/** What a hex text says in terms of its characters: which digits write which bytes, and that
    neither case nor a prefix matters. */
module HexText {
  import opened Wrappers
  import opened JsBigInt
  import opened Powers
  import opened NumberText
  import opened ByteCodecs

  const LOWER := "0123456789abcdef"
  const UPPER := "0123456789ABCDEF"

  /** A hex digit in either case. */
  predicate Writes(c: char, d: nat)
    requires d < 16
  {
    c == LOWER[d] || c == UPPER[d]
  }

  /** The hex digits are those of the two alphabets, each with its place there as its value. */
  lemma HexDigitsAre(c: char)
    ensures IsHex(c) <==> c in LOWER || c in UPPER
    ensures forall d: nat | d < 16 :: Writes(c, d) <==> IsHex(c) && HexValue(c) == d
    ensures IsDigit(c) <==> c in LOWER
  {
    assert IsHex(c) ==> Writes(c, HexValue(c));
  }

  /** Two digits, in either case, that write a byte. */
  ghost predicate WritesByte(high: char, low: char, b: byte) {
    Writes(high, b / 16) && Writes(low, b % 16)
  }

  lemma ByteIsWritten(high: char, low: char, b: byte)
    requires IsHex(high) && IsHex(low)
    ensures WritesByte(high, low, b) <==> b == HexValue(high) * 16 + HexValue(low)
  {
    HexDigitsAre(high);
    HexDigitsAre(low);
  }

  ghost predicate WritesBytes(t: string, a: seq<byte>) {
    |a| == |t| / 2 && forall i :: 0 <= i < |a| ==> WritesByte(t[2 * i], t[2 * i + 1], a[i])
  }

  predicate OnlyHex(t: string) {
    forall i :: 0 <= i < |t| ==> t[i] in LOWER || t[i] in UPPER
  }

  lemma HexTexts(t: string)
    ensures AllHex(t) <==> OnlyHex(t)
  {
    forall i | 0 <= i < |t| ensures IsHex(t[i]) <==> t[i] in LOWER || t[i] in UPPER { HexDigitsAre(t[i]); }
  }

  /** A text stands for bytes exactly when it is hex digits throughout, but for one prefix, and
      two digits after the other write each byte; a last digit may be left over. */
  lemma ParsesExactly(hex: string, a: seq<byte>)
    ensures var t := if "0x" <= hex then hex[2..] else hex;
      ParseHex(hex) == Some(a) <==> OnlyHex(t) && WritesBytes(t, a)
  {
    var t := if "0x" <= hex then hex[2..] else hex;
    assert t == Normalized(hex);
    HexTexts(t);
    if AllHex(t) && |a| == |t| / 2 {
      forall i | 0 <= i < |a| ensures WritesByte(t[2 * i], t[2 * i + 1], a[i]) <==> a[i] == Pairs(t)[i] {
        ByteIsWritten(t[2 * i], t[2 * i + 1], a[i]);
      }
      assert (forall i :: 0 <= i < |a| ==> a[i] == Pairs(t)[i]) <==> a == Pairs(t);
    }
  }

  /** The same digit in whatever case. */
  ghost predicate SameDigit(c: char, e: char) {
    exists d: nat :: d < 16 && Writes(c, d) && Writes(e, d)
  }

  ghost predicate SameDigits(t: string, u: string) {
    |t| == |u| && forall i :: 0 <= i < |t| ==> SameDigit(t[i], u[i])
  }

  lemma SameValue(c: char, e: char)
    requires SameDigit(c, e)
    ensures IsHex(c) && IsHex(e) && HexValue(c) == HexValue(e)
  {
    HexDigitsAre(c);
    HexDigitsAre(e);
  }

  lemma SameValues(t: string, u: string)
    requires SameDigits(t, u)
    ensures AllHex(t) && AllHex(u) && forall i :: 0 <= i < |t| ==> HexValue(t[i]) == HexValue(u[i])
  {
    forall i | 0 <= i < |t| ensures IsHex(t[i]) && IsHex(u[i]) && HexValue(t[i]) == HexValue(u[i]) {
      SameValue(t[i], u[i]);
    }
  }

  lemma SamePairs(t: string, u: string)
    requires AllHex(t) && AllHex(u) && |t| == |u|
    requires forall i :: 0 <= i < |t| ==> HexValue(t[i]) == HexValue(u[i])
    ensures Pairs(t) == Pairs(u)
  {
    assert forall i :: 0 <= i < |Pairs(t)| ==> Pairs(t)[i] == Pairs(u)[i];
  }

  lemma NoPrefix(t: string)
    requires AllHex(t)
    ensures Normalized(t) == t
  {
    if |t| >= 2 { assert IsHex(t[1]); }
  }

  /** Neither the case of the digits nor a prefix matters; a second prefix is an error. */
  lemma CaseAndPrefix(t: string, u: string)
    requires SameDigits(t, u)
    ensures ParseHex(t).Some? && ParseHex(t) == ParseHex(u) == ParseHex("0x" + u)
    ensures ParseHex("0x" + ("0x" + u)) == None
  {
    SameValues(t, u);
    SamePairs(t, u);
    NoPrefix(t);
    NoPrefix(u);
    assert Normalized("0x" + u) == u;
    assert Normalized("0x" + ("0x" + u)) == "0x" + u && !IsHex(("0x" + u)[1]);
  }

  /** So an array's hex text, its digits in any case and with a prefix or without, parses to
      the array. */
  lemma {:induction false} AnyTextRoundTrip(a: seq<byte>, u: string)
    requires SameDigits(Uint8ArrayToHexString(a), u)
    ensures ParseHex(u) == ParseHex("0x" + u) == Some(a)
  {
    HexTextRoundTrip(a);
    CaseAndPrefix(Uint8ArrayToHexString(a), u);
  }

  // ---------- Refused values ----------

  lemma {:induction false} ShortText(v: nat, n: nat)
    requires v > 0 && n > 0
    ensures |Digits(v, 16)| < n <==> v < Pow(16, n - 1)
  {
    TextLength(v, 16);
    if |Digits(v, 16)| < n { PowGrows(16, |Digits(v, 16)|, n - 1); } else { PowGrows(16, n - 1, |Digits(v, 16)| - 1); }
  }

  lemma {:induction false} LeadDigit(bits: nat)
    requires bits > 0 && bits % 8 == 0
    ensures Pow(16, bits / 8 * 2 - 1) == Pow(2, bits - 4)
  {
    assert Pow(2, 4) == 16;
    PowPow(2, 4, bits / 8 * 2 - 1);
  }

  /** Which values have no bytes: those of widths that are not positive multiples of 8, and those
      from the sign bit on whose complement is so small that the text keeps its sign. */
  lemma {:induction false} NoBytesExactly(value: int, bits: int)
    ensures bits > 0 && bits % 8 == 0 ==> Pow(2, bits - 1) > 0
    ensures BytesOf(value, bits) == None
       <==> bits <= 0 || bits % 8 != 0
            || (value >= Pow(2, bits - 1) && value - 2 * (value % Pow(2, bits - 1)) < Pow(2, bits - 4))
  {
    if bits > 0 && bits % 8 == 0 {
      HalfPower(bits);
      if value < Pow(2, bits - 1) {
        SmallReadsBack(value, bits);
      } else {
        LargeRefusedExactly(value, bits);
      }
    }
  }

  lemma {:induction false} LargeRefusedExactly(value: int, bits: nat)
    requires bits > 0 && bits % 8 == 0 && Pow(2, bits - 1) > 0 && value >= Pow(2, bits - 1)
    ensures BytesOf(value, bits) == None <==> value - 2 * (value % Pow(2, bits - 1)) < Pow(2, bits - 4)
  {
    ComplementOfLarge(value, Pow(2, bits - 1));
    SignedText(value, bits, value - 2 * (value % Pow(2, bits - 1)));
  }

  /** A complement that is negative loses its sign with its digits, or keeps it and is refused. */
  lemma {:induction false} SignedText(value: int, bits: nat, v: nat)
    requires bits > 0 && bits % 8 == 0 && v > 0 && TwosComplement(value, bits) == -(v as int)
    ensures BytesOf(value, bits) == None <==> v < Pow(2, bits - 4)
  {
    var n := bits / 8 * 2;
    ShortText(v, n);
    LeadDigit(bits);
    if |Digits(v, 16)| >= n {
      SignCut(v, n);
      BytesOfDigits(value, bits, v);
    } else {
      SignLeft(v, n);
    }
  }
}
