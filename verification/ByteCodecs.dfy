/** Integers as bytes, as 64-bit limbs, and as two's complement hex text read back byte by byte.
    Quotients and remainders of big integers truncate toward zero; a byte array keeps the low
    eight bits of what is stored into it. */
module ByteCodecs {
  import opened Wrappers
  import opened JsBigInt
  import opened Powers
  import opened NumberText

  type byte = b: nat | b < 256

  // ---------- Digits by repeated division ----------

  /** The n lowest digits of a number, lowest first; for negative numbers they are negative. */
  function Limbs(x: int, b: nat, n: nat): (s: seq<int>)
    requires b > 0
    ensures |s| == n
    decreases n
  {
    if n == 0 then [] else [TruncMod(x, b)] + Limbs(TruncDiv(x, b), b, n - 1)
  }

  /** The number that digits denote, lowest first. */
  function Combine(s: seq<int>, b: nat): int {
    if s == [] then 0 else Combine(s[1..], b) * b + s[0]
  }

  lemma TruncDivTwice(x: int, b: nat, c: nat)
    requires b > 0 && c > 0
    ensures b * c > 0
    ensures TruncMod(x, b * c) == TruncMod(TruncDiv(x, b), c) * b + TruncMod(x, b)
  {
    var y: nat := if x >= 0 then x else -x;
    DivTwice(y, b, c);
    assert x < 0 ==> TruncMod(TruncDiv(x, b), c) == -(y / b % c);
    assert -(y / b % c) * b == -(y / b % c * b);
  }

  /** The limbs of any number recombine to its truncating remainder. */
  lemma {:induction false} LimbsCombine(x: int, b: nat, n: nat)
    requires b > 0
    ensures Pow(b, n) > 0 && Combine(Limbs(x, b, n), b) == TruncMod(x, Pow(b, n))
    decreases n
  {
    PowPositive(b, n);
    if n == 0 {
      assert Pow(b, 0) == 1;
    } else {
      PowPositive(b, n - 1);
      LimbsCombine(TruncDiv(x, b), b, n - 1);
      TruncDivTwice(x, b, Pow(b, n - 1));
      assert Limbs(x, b, n)[1..] == Limbs(TruncDiv(x, b), b, n - 1);
    }
  }

  method BigintToTuple(x: int) returns (ret: seq<int>)
    ensures Pow(2, 64) > 0 && ret == Limbs(x, Pow(2, 64), 4)
  {
    var mod := Pow(2, 64);
    PowPositive(2, 64);
    ret := [0, 0, 0, 0];
    var x_temp := x;
    var idx := 0;
    while idx < 4
      invariant 0 <= idx <= 4 && |ret| == 4
      invariant ret[..idx] + Limbs(x_temp, mod, 4 - idx) == Limbs(x, mod, 4)
    {
      var before := ret;
      ret := ret[idx := TruncMod(x_temp, mod)];
      assert ret[..idx + 1] == before[..idx] + [TruncMod(x_temp, mod)];
      x_temp := TruncDiv(x_temp, mod);
      idx := idx + 1;
    }
    assert ret[..4] == ret;
  }

  /** A truncating remainder is the mathematical one exactly when it is not negative. */
  lemma TruncModExact(x: int, m: nat)
    requires m > 0
    ensures TruncMod(x, m) == x % m <==> x >= 0 || x % m == 0
  {
    var r := TruncMod(x, m);
    TruncModCongruent(x, m);
    if x < 0 { DivModUnique(r, m, if r == 0 then 0 else -1, if r == 0 then 0 else r + m); }
  }

  /** The four limbs recombine to the number modulo 2^256 exactly when it is not negative or a
      multiple of 2^256. */
  lemma {:induction false} TupleRecombines(x: int)
    ensures Pow(2, 64) > 0 && Pow(2, 256) > 0
    ensures Combine(Limbs(x, Pow(2, 64), 4), Pow(2, 64)) == x % Pow(2, 256) <==> x >= 0 || x % Pow(2, 256) == 0
  {
    PowPositive(2, 64);
    PowPow(2, 64, 4);
    LimbsCombine(x, Pow(2, 64), 4);
    TruncModExact(x, Pow(Pow(2, 64), 4));
  }

  // ---------- Byte arrays ----------

  function AsByte(v: int): byte {
    v % 256
  }

  /** The n lowest bytes of a number, highest first, as repeated division stores them. */
  function BigEndian(x: int, n: nat): (s: seq<byte>)
    ensures |s| == n
    decreases n
  {
    if n == 0 then [] else BigEndian(TruncDiv(x, 256), n - 1) + [AsByte(TruncMod(x, 256))]
  }

  /** The number that bytes denote, highest first. */
  function Value(s: seq<byte>): nat {
    if s == [] then 0 else Value(s[..|s| - 1]) * 256 + s[|s| - 1]
  }

  lemma {:induction false} BigEndianStep(x: int, n: nat, after: seq<byte>)
    ensures BigEndian(x, n + 1) + after
         == BigEndian(TruncDiv(x, 256), n) + ([AsByte(TruncMod(x, 256))] + after)
  {
  }

  method Bigint_to_Uint8Array(x: int) returns (ret: array<byte>)
    ensures fresh(ret) && ret[..] == BigEndian(x, 32)
  {
    ret := new byte[32](_ => 0);
    var rest := x;
    var idx := 31;
    while idx >= 0
      invariant -1 <= idx <= 31
      invariant BigEndian(rest, idx + 1) + ret[idx + 1..] == BigEndian(x, 32)
    {
      ghost var after := ret[idx + 1..];
      BigEndianStep(rest, idx, after);
      ret[idx] := AsByte(TruncMod(rest, 256));
      assert ret[idx..] == [ret[idx]] + after;
      rest, idx := TruncDiv(rest, 256), idx - 1;
    }
    assert ret[0..] == ret[..];
  }

  method Uint8Array_to_bigint(x: array<byte>) returns (ret: nat)
    ensures ret == Value(x[..])
  {
    ret := 0;
    for idx := 0 to x.Length
      invariant ret == Value(x[..idx])
    {
      ret := ret * 256;
      ret := ret + x[idx];
      assert x[..idx + 1][..idx] == x[..idx];
    }
    assert x[..x.Length] == x[..];
  }

  lemma FloorStep(x: int, p: nat)
    requires p > 0
    ensures x % (256 * p) == x / 256 % p * 256 + x % 256
  {
    var f := x / 256;
    assert x == 256 * f + x % 256 && f == f / p * p + f % p;
    assert f / p * p * 256 == f / p * (256 * p);
    DivModUnique(x, 256 * p, f / p, f % p * 256 + x % 256);
  }

  lemma LastByte(x: int, n: nat)
    requires n > 0
    ensures Value(BigEndian(x, n)) == Value(BigEndian(TruncDiv(x, 256), n - 1)) * 256 + x % 256
  {
    TruncModCongruent(x, 256);
    assert BigEndian(x, n)[..n - 1] == BigEndian(TruncDiv(x, 256), n - 1);
  }

  lemma LastDiffers(a: int, c: int, q: int)
    ensures a * 256 + q % 256 != c * 256 + (q - 1) % 256
  {
    assert (a * 256 + q % 256) % 256 == q % 256 && (c * 256 + (q - 1) % 256) % 256 == (q - 1) % 256;
  }

  /** Rounding a quotient toward zero, when there is a remainder, makes the bytes above differ:
      they end in the next number's last byte. */
  lemma {:induction false} RoundedDiffers(q: int, n: nat)
    requires n > 0 && Pow(256, n) > 0
    ensures Value(BigEndian(q, n)) != (q - 1) % Pow(256, n)
  {
    var p := Pow(256, n - 1);
    PowPositive(256, n - 1);
    LastByte(q, n);
    FloorStep(q - 1, p);
    LastDiffers(Value(BigEndian(TruncDiv(q, 256), n - 1)), (q - 1) / 256 % p, q);
  }

  /** The quotients of the two ways to divide. */
  lemma FloorOrTrunc(x: int)
    ensures x / 256 == if x < 0 && x % 256 != 0 then TruncDiv(x, 256) - 1 else TruncDiv(x, 256)
  {
  }

  /** Which numbers their bytes denote, up to a multiple of 256^n: those that are not negative,
      and of the others those whose bytes below the highest are all 0. */
  lemma {:induction false} BytesExact(x: int, n: nat)
    requires n > 0
    ensures Pow(256, n) > 0 && Pow(256, n - 1) > 0
    ensures Value(BigEndian(x, n)) == x % Pow(256, n) <==> x >= 0 || x % Pow(256, n - 1) == 0
    decreases n
  {
    var q, p := TruncDiv(x, 256), Pow(256, n - 1);
    PowPositive(256, n);
    PowPositive(256, n - 1);
    LastByte(x, n);
    FloorStep(x, p);
    FloorOrTrunc(x);
    if n == 1 {
      assert Pow(256, 0) == 1;
    } else {
      assert Value(BigEndian(x, n)) == x % Pow(256, n) <==> Value(BigEndian(q, n - 1)) == x / 256 % p;
      FloorStep(x, Pow(256, n - 2));
      if x < 0 && x % 256 != 0 { RoundedDiffers(q, n - 1); } else { BytesExact(q, n - 1); }
    }
  }

  lemma {:induction false} PowersOf256(n: nat)
    ensures Pow(256, n) == Pow(2, 8 * n)
  {
    assert Pow(2, 8) == 256;
    PowPow(2, 8, n);
  }

  lemma {:induction false} BigintBytesExact(x: int)
    ensures Pow(2, 256) > 0 && Pow(2, 248) > 0
    ensures Value(BigEndian(x, 32)) == x % Pow(2, 256) <==> x >= 0 || x % Pow(2, 248) == 0
  {
    PowersOf256(32);
    PowersOf256(31);
    BytesExact(x, 32);
  }

  /** Bytes come back from the number they denote. */
  lemma {:induction false} BytesComeBack(s: seq<byte>)
    ensures Value(s) < Pow(256, |s|) && BigEndian(Value(s), |s|) == s
    decreases |s|
  {
    if s == [] {
      assert Pow(256, 0) == 1;
    } else {
      var init := s[..|s| - 1];
      BytesComeBack(init);
      DivModUnique(Value(s), 256, Value(init), s[|s| - 1]);
      assert s == init + [s[|s| - 1]];
    }
  }

  // ---------- Hex text ----------

  predicate IsHex(c: char) {
    IsDigit(c) || 'A' <= c <= 'F'
  }

  function HexValue(c: char): nat
    requires IsHex(c)
    ensures HexValue(c) < 16
  {
    if IsDigit(c) then DigitValue(c) else (c - 'A') as int + 10
  }

  predicate AllHex(s: string) {
    forall i :: 0 <= i < |s| ==> IsHex(s[i])
  }

  /** The text without the prefix it may have. */
  function Normalized(hex: string): string {
    if |hex| >= 2 && hex[0] == '0' && hex[1] == 'x' then hex[2..] else hex
  }

  /** The bytes of pairs of digits; an odd digit at the end has no place. */
  function Pairs(s: string): (b: seq<byte>)
    requires AllHex(s)
    ensures |b| == |s| / 2
    ensures forall i :: 0 <= i < |b| ==> b[i] == HexValue(s[2 * i]) * 16 + HexValue(s[2 * i + 1])
  {
    seq(|s| / 2, i requires 0 <= i < |s| / 2 => HexValue(s[2 * i]) * 16 + HexValue(s[2 * i + 1]))
  }

  /** The bytes a hex text stands for, if it is one. */
  function ParseHex(hex: string): Option<seq<byte>> {
    if AllHex(Normalized(hex)) then Some(Pairs(Normalized(hex))) else None
  }

  /** Text that is not hex is an error; an odd number of digits is not, and the last is dropped. */
  method HexStringToUint8Array(hex: string) returns (r: Option<array<byte>>)
    ensures r.Some? <==> ParseHex(hex).Some?
    ensures r.Some? ==> fresh(r.value) && r.value[..] == ParseHex(hex).value
  {
    var normalized := Normalized(hex);
    if !AllHex(normalized) {
      return None;
    }
    var bytes := new byte[|normalized| / 2](_ => 0);
    for i := 0 to bytes.Length
      invariant forall j ::
        0 <= j < i ==> bytes[j] == HexValue(normalized[2 * j]) * 16 + HexValue(normalized[2 * j + 1])
    {
      bytes[i] := HexValue(normalized[i * 2]) * 16 + HexValue(normalized[i * 2 + 1]);
    }
    r := Some(bytes);
  }

  function Zeros(n: nat): (s: string)
    ensures |s| == n && forall i :: 0 <= i < n ==> s[i] == '0'
  {
    if n == 0 then "" else "0" + Zeros(n - 1)
  }

  /** The last characters of a text, as slice(-n) takes them for n > 0. */
  function LastOf(s: string, n: nat): string {
    if |s| <= n then s else s[|s| - n..]
  }

  function UnsignedBigintToHexString(value: int, bits: nat): string {
    var hexStringLength := bits / 8 * 2;
    LastOf(Zeros(hexStringLength) + Text(value, 16), hexStringLength)
  }

  function Uint8ArrayToHexString(a: seq<byte>): string {
    if a == [] then "" else Uint8ArrayToHexString(a[..|a| - 1]) + LastOf("00" + Digits(a[|a| - 1], 16), 2)
  }

  /** The value with its bits from bits - 1 upwards taken as a number and subtracted from those
      below. */
  function TwosComplement(value: int, bits: nat): int
    requires bits > 0
  {
    PowPositive(2, bits - 1);
    var low := value % Pow(2, bits - 1);
    low - (value - low)
  }

  /** Widths that are not multiples of 8 are an error, and so are those below 1, for which the
      mask would be a power with a negative exponent. */
  function BigintToHexString(value: int, bits: int): Option<string> {
    if bits % 8 != 0 || bits <= 0 then None
    else Some(UnsignedBigintToHexString(TwosComplement(value, bits), bits))
  }

  method BigintToUint8Array(value: int, bits: int) returns (r: Option<array<byte>>)
    ensures r.Some? <==> BytesOf(value, bits).Some?
    ensures r.Some? ==> fresh(r.value) && r.value[..] == BytesOf(value, bits).value
  {
    var valueAsHexString := BigintToHexString(value, bits);
    if valueAsHexString == None {
      return None;
    }
    r := HexStringToUint8Array(valueAsHexString.value);
  }

  function BytesOf(value: int, bits: int): Option<seq<byte>> {
    var hex := BigintToHexString(value, bits);
    if hex.Some? then ParseHex(hex.value) else None
  }

  // ---------- Reading hex text back ----------

  lemma OneMoreDigit(x: nat, p: nat, r: nat, b: nat, d: nat)
    requires r < p && d < b
    ensures r * b + d < b * p
    ensures (x * p + r) * b + d == x * (b * p) + (r * b + d)
  {
    MulMonotone(r + 1, p, b);
    assert (r + 1) * b == r * b + b;
    assert (x * p + r) * b == x * p * b + r * b && x * p * b == x * (b * p);
  }

  /** A text of hex digits reads as its last part, plus what is before it moved up. */
  lemma {:induction false} ReadConcat(a: string, c: string)
    requires AllDigits(a) && AllDigits(c)
    ensures Read(c, 16) < Pow(16, |c|)
    ensures AllDigits(a + c) && Read(a + c, 16) == Read(a, 16) * Pow(16, |c|) + Read(c, 16)
    decreases |c|
  {
    if c == [] {
      assert a + c == a && Pow(16, 0) == 1;
    } else {
      var init := c[..|c| - 1];
      ReadConcat(a, init);
      assert (a + c)[..|a + c| - 1] == a + init;
      OneMoreDigit(Read(a, 16), Pow(16, |init|), Read(init, 16), 16, DigitValue(c[|c| - 1]));
    }
  }

  lemma {:induction false} ZerosRead(n: nat)
    ensures AllDigits(Zeros(n)) && Read(Zeros(n), 16) == 0
  {
    if n > 0 {
      ZerosRead(n - 1);
      assert Zeros(n)[..n - 1] == Zeros(n - 1) by {
        assert forall i :: 0 <= i < n ==> Zeros(n)[i] == '0';
      }
    }
  }

  lemma {:induction false} LastRead(s: string, n: nat)
    requires AllDigits(s) && |s| > n
    ensures |LastOf(s, n)| == n && AllDigits(LastOf(s, n))
    ensures Pow(16, n) > 0 && Read(LastOf(s, n), 16) == Read(s, 16) % Pow(16, n)
  {
    var head, t := s[..|s| - n], s[|s| - n..];
    assert s == head + t;
    PowPositive(16, n);
    ReadConcat(head, t);
    DivModUnique(Read(s, 16), Pow(16, n), Read(head, 16), Read(t, 16));
  }

  /** The last digits of the padded text of a number denote its remainder. */
  lemma {:induction false} PaddedDigits(v: nat, n: nat)
    ensures Pow(16, n) > 0
    ensures var t := LastOf(Zeros(n) + Digits(v, 16), n);
      |t| == n && AllDigits(t) && Read(t, 16) == v % Pow(16, n)
  {
    ZerosRead(n);
    ReadDigits(v, 16);
    ReadConcat(Zeros(n), Digits(v, 16));
    LastRead(Zeros(n) + Digits(v, 16), n);
  }

  lemma DigitsAreHex(s: string)
    requires AllDigits(s)
    ensures Normalized(s) == s && AllHex(s)
  {
  }

  lemma PairsInit(s: string)
    requires |s| % 2 == 0 && |s| > 0 && AllHex(s)
    ensures Pairs(s) == Pairs(s[..|s| - 2]) + [HexValue(s[|s| - 2]) * 16 + HexValue(s[|s| - 1])]
  {
    var m := |s| / 2 - 1;
    assert |s| == 2 * m + 2;
    assert Pairs(s)[m] == HexValue(s[2 * m]) * 16 + HexValue(s[2 * m + 1]);
  }

  lemma {:induction false} ReadTwo(s: string)
    requires |s| >= 2 && AllDigits(s)
    ensures Read(s, 16) == Read(s[..|s| - 2], 16) * 256 + (DigitValue(s[|s| - 2]) * 16 + DigitValue(s[|s| - 1]))
  {
    assert s[..|s| - 1][..|s| - 2] == s[..|s| - 2];
  }

  /** Digits two by two denote as bytes what they denote as digits. */
  lemma {:induction false} PairsRead(s: string)
    requires |s| % 2 == 0 && AllDigits(s)
    ensures AllHex(s) && Value(Pairs(s)) == Read(s, 16)
    decreases |s|
  {
    if s != [] {
      PairsRead(s[..|s| - 2]);
      PairsInit(s);
      ReadTwo(s);
    }
  }

  // ---------- Two's complement ----------

  lemma HalfPower(bits: nat)
    requires bits > 0
    ensures Pow(2, bits) == 2 * Pow(2, bits - 1) > 0
  {
    PowPositive(2, bits);
  }

  lemma {:induction false} HexDigitsOfBits(bits: nat)
    requires bits % 8 == 0
    ensures Pow(16, bits / 8 * 2) == Pow(2, bits)
  {
    assert Pow(2, 4) == 16;
    PowPow(2, 4, bits / 8 * 2);
  }

  /** A value below the sign bit, negative ones of any size included, keeps its residue and
      turns non-negative. */
  lemma ComplementOfSmall(value: int, half: nat)
    requires half > 0 && value < half
    ensures var low := value % half; 2 * low - value >= 0 && (2 * low - value) % (2 * half) == value % (2 * half)
  {
    var low, h := value % half, value / half;
    assert value == h * half + low;
    MulMonotone(1, h, half);
    MulMonotone(h, 0, half);
    assert value == (2 * low - value) + h * (2 * half);
    ModShift(2 * low - value, h, 2 * half);
  }

  /** A value from the sign bit on turns negative, and its absolute value is in the residue
      class of the value exactly when the bits below the sign bit are all 0. */
  lemma ComplementOfLarge(value: int, half: nat)
    requires half > 0 && value >= half
    ensures var low := value % half;
      2 * low - value < 0 && ((value - 2 * low) % (2 * half) == value % (2 * half) <==> low == 0)
  {
    var low := value % half;
    var w := value - 2 * low;
    assert value == value / half * half + low;
    assert value / half >= 1 by { if value / half < 1 { MulMonotone(value / half, 0, half); } }
    MulMonotone(1, value / half, half);
    var r := w % (2 * half);
    var q := w / (2 * half);
    assert w == q * (2 * half) + r;
    if r + 2 * low < 2 * half {
      DivModUnique(value, 2 * half, q, r + 2 * low);
    } else {
      assert value == (q + 1) * (2 * half) + (r + 2 * low - 2 * half);
      DivModUnique(value, 2 * half, q + 1, r + 2 * low - 2 * half);
    }
  }

  lemma {:induction false} ParsedDigits(v: nat, k: nat)
    ensures Pow(16, k * 2) > 0
    ensures var b := ParseHex(LastOf(Zeros(k * 2) + Digits(v, 16), k * 2));
      b.Some? && |b.value| == k && Value(b.value) == v % Pow(16, k * 2)
  {
    var t := LastOf(Zeros(k * 2) + Digits(v, 16), k * 2);
    PaddedDigits(v, k * 2);
    DigitsAreHex(t);
    PairsRead(t);
    assert ParseHex(t) == Some(Pairs(t));
  }

  lemma {:induction false} BytesOfDigits(value: int, bits: nat, v: nat)
    requires bits > 0 && bits % 8 == 0
    requires UnsignedBigintToHexString(TwosComplement(value, bits), bits)
      == LastOf(Zeros(bits / 8 * 2) + Digits(v, 16), bits / 8 * 2)
    ensures Pow(2, bits) > 0
    ensures BytesOf(value, bits).Some? && |BytesOf(value, bits).value| == bits / 8
    ensures Value(BytesOf(value, bits).value) == v % Pow(2, bits)
  {
    ParsedDigits(v, bits / 8);
    HexDigitsOfBits(bits);
  }

  lemma SmallComplement(value: int, bits: nat)
    requires bits > 0 && value < Pow(2, bits - 1)
    ensures Pow(2, bits) > 0 && TwosComplement(value, bits) >= 0
    ensures TwosComplement(value, bits) % Pow(2, bits) == value % Pow(2, bits)
  {
    HalfPower(bits);
    ComplementOfSmall(value, Pow(2, bits - 1));
  }

  /** Below the sign bit every value, however negative, is read back up to a multiple of
      2^bits. */
  lemma SmallReadsBack(value: int, bits: nat)
    requires bits > 0 && bits % 8 == 0 && value < Pow(2, bits - 1)
    ensures Pow(2, bits) > 0
    ensures BytesOf(value, bits).Some? && |BytesOf(value, bits).value| == bits / 8
    ensures Value(BytesOf(value, bits).value) == value % Pow(2, bits)
  {
    SmallComplement(value, bits);
    BytesOfDigits(value, bits, TwosComplement(value, bits));
  }

  /** With fewer digits than the width has, the sign stays in the text, and that is an error. */
  lemma {:induction false} SignLeft(v: nat, n: nat)
    requires |Digits(v, 16)| < n
    ensures var t := LastOf(Zeros(n) + ("-" + Digits(v, 16)), n); ParseHex(t) == None
  {
    var d := Digits(v, 16);
    var s := Zeros(n) + ("-" + d);
    var t := LastOf(s, n);
    var k := n - 1 - |d|;
    assert t[k] == s[n] == '-';
    DigitsAreDigits(v, 16);
    assert t[1] == s[|d| + 2];
    assert Normalized(t) == t;
    assert !IsHex(t[k]);
  }

  lemma LastOfConcat(a: string, c: string, n: nat)
    requires |c| >= n
    ensures LastOf(a + c, n) == LastOf(c, n)
  {
    assert (a + c)[|a + c| - n..] == c[|c| - n..];
  }

  /** With as many, it is cut off. */
  lemma {:induction false} SignCut(v: nat, n: nat)
    requires |Digits(v, 16)| >= n
    ensures LastOf(Zeros(n) + ("-" + Digits(v, 16)), n) == LastOf(Zeros(n) + Digits(v, 16), n)
  {
    LastOfConcat(Zeros(n), "-" + Digits(v, 16), n);
    LastOfConcat("-", Digits(v, 16), n);
    LastOfConcat(Zeros(n), Digits(v, 16), n);
  }

  lemma EnoughDigits(v: nat, bits: nat)
    requires bits > 0 && bits % 8 == 0 && v >= Pow(2, bits - 1)
    ensures |Digits(v, 16)| >= bits / 8 * 2
  {
    var n := bits / 8 * 2;
    HalfPower(bits);
    HexDigitsOfBits(bits);
    TextLength(v, 16);
    if |Digits(v, 16)| <= n - 1 { PowGrows(16, |Digits(v, 16)|, n - 1); }
  }

  lemma LargeReadsBackExactly(value: int, bits: nat)
    requires bits > 0 && bits % 8 == 0 && value >= Pow(2, bits - 1)
    ensures Pow(2, bits) > 0 && Pow(2, bits - 1) > 0
    ensures BytesOf(value, bits).Some? && Value(BytesOf(value, bits).value) == value % Pow(2, bits)
       <==> value % Pow(2, bits - 1) == 0
  {
    var n := bits / 8 * 2;
    HalfPower(bits);
    ComplementOfLarge(value, Pow(2, bits - 1));
    var v: nat := -TwosComplement(value, bits);
    if |Digits(v, 16)| >= n {
      SignCut(v, n);
      BytesOfDigits(value, bits, v);
    } else {
      SignLeft(v, n);
      if value % Pow(2, bits - 1) == 0 { EnoughDigits(v, bits); }
    }
  }

  /** Which values the bytes denote up to a multiple of 2^bits: those below the sign bit and the
      multiples of its weight. */
  lemma BytesReadBackExactly(value: int, bits: nat)
    requires bits > 0 && bits % 8 == 0
    ensures Pow(2, bits) > 0 && Pow(2, bits - 1) > 0
    ensures BytesOf(value, bits).Some? && Value(BytesOf(value, bits).value) == value % Pow(2, bits)
       <==> value < Pow(2, bits - 1) || value % Pow(2, bits - 1) == 0
  {
    HalfPower(bits);
    if value < Pow(2, bits - 1) {
      SmallReadsBack(value, bits);
    } else {
      LargeReadsBackExactly(value, bits);
    }
  }

  function AsSigned(u: nat, bits: nat): int
    requires bits > 0
  {
    if u < Pow(2, bits - 1) then u else u - Pow(2, bits)
  }

  /** In the signed range the value itself comes back. */
  lemma {:induction false} SignedRoundTrip(value: int, bits: nat)
    requires bits > 0 && bits % 8 == 0 && -value <= Pow(2, bits - 1) && value < Pow(2, bits - 1)
    ensures BytesOf(value, bits).Some? && AsSigned(Value(BytesOf(value, bits).value), bits) == value
  {
    HalfPower(bits);
    SmallReadsBack(value, bits);
    DivModUnique(value, Pow(2, bits), if value < 0 then -1 else 0, if value < 0 then value + Pow(2, bits) else value);
  }

  lemma {:induction false} TwoDigits(t: string)
    requires |t| == 2 && AllDigits(t)
    ensures Read(t, 16) == DigitValue(t[0]) * 16 + DigitValue(t[1])
  {
    ReadTwo(t);
    assert Read(t[..0], 16) == 0;
  }

  lemma {:induction false} PaddedSmall(v: nat, n: nat, t: string)
    requires v < Pow(16, n) && t == LastOf(Zeros(n) + Digits(v, 16), n)
    ensures |t| == n && AllDigits(t) && Read(t, 16) == v
  {
    PaddedDigits(v, n);
    DivModUnique(v, Pow(16, n), 0, v);
  }

  lemma {:induction false} ByteText(b: byte)
    ensures var t := LastOf("00" + Digits(b, 16), 2);
      |t| == 2 && AllDigits(t) && DigitValue(t[0]) * 16 + DigitValue(t[1]) == b
  {
    var t := LastOf("00" + Digits(b, 16), 2);
    assert Zeros(2) == "00";
    PowersOf256(1);
    HexDigitsOfBits(8);
    PaddedSmall(b, 2, t);
    TwoDigits(t);
  }

  /** Two more digits are one more byte. */
  lemma PairsAppend(s: string, t: string)
    requires |s| % 2 == 0 && |t| == 2 && AllDigits(s) && AllDigits(t)
    ensures AllDigits(s + t) && AllHex(s) && AllHex(s + t)
    ensures Pairs(s + t) == Pairs(s) + [DigitValue(t[0]) * 16 + DigitValue(t[1])]
  {
    PairsInit(s + t);
    assert (s + t)[..|s + t| - 2] == s;
  }

  lemma SplitLast<T>(s: seq<T>)
    requires s != []
    ensures s == s[..|s| - 1] + [s[|s| - 1]]
  {
  }

  lemma {:induction false} HexTextPairs(a: seq<byte>)
    ensures var t := Uint8ArrayToHexString(a);
      AllDigits(t) && AllHex(t) && |t| == 2 * |a| && Pairs(t) == a
    decreases |a|
  {
    if a != [] {
      var init, b := a[..|a| - 1], a[|a| - 1];
      SplitLast(a);
      HexTextPairs(init);
      OneMoreByte(init, Uint8ArrayToHexString(init), b);
    }
  }

  lemma {:induction false} OneMoreByte(init: seq<byte>, t: string, b: byte)
    requires AllDigits(t) && AllHex(t) && |t| == 2 * |init| && Pairs(t) == init
    ensures var u := t + LastOf("00" + Digits(b, 16), 2);
      AllDigits(u) && AllHex(u) && |u| == 2 * |init + [b]| && Pairs(u) == init + [b]
  {
    ByteText(b);
    PairsAppend(t, LastOf("00" + Digits(b, 16), 2));
  }

  /** The hex text of bytes parses to those bytes. */
  lemma {:induction false} HexTextRoundTrip(a: seq<byte>)
    ensures |Uint8ArrayToHexString(a)| == 2 * |a| && ParseHex(Uint8ArrayToHexString(a)) == Some(a)
  {
    HexTextPairs(a);
    DigitsAreHex(Uint8ArrayToHexString(a));
  }
}
