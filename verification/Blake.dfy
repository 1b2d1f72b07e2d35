/** BLAKE-512 and BLAKE-384: streaming, the 128-bit message counter and the padding. The compression
    function itself is abstract. */
module Blake {
  import opened Basics
  import opened Stream
  import Numerals

  /** The eight chaining words. */
  type Chain = h: seq<bv64> | |h| == 8 witness [0, 0, 0, 0, 0, 0, 0, 0]
  type Compression = (Chain, seq<Octet>, nat, nat) -> Chain

  const TWO64: nat := 0x1_0000_0000_0000_0000
  const BLOCK: nat := 128

  /** The two 64-bit words of a count, modulo 2^128. */
  function Low(x: nat): nat { x % TWO64 }
  function High(x: nat): nat { (x / TWO64) % TWO64 }

  // ---- the hash as section 2.2 of the BLAKE proposal defines it ----

  /** The counter of block `i`: message bits up to and including it, or 0 if it has none. */
  function Counter(bits: nat, i: nat): nat
  {
    if 1024 * i >= bits then 0 else if bits < 1024 * (i + 1) then bits else 1024 * (i + 1)
  }

  /** The chain value after `k` blocks of a padded message with so many message bits. */
  function RefChain(f: Compression, iv: Chain, padded: seq<Octet>, bits: nat, k: nat): Chain
    requires BLOCK * k <= |padded|
  {
    if k == 0 then iv
    else
      var t := Counter(bits, k - 1);
      f(RefChain(f, iv, padded, bits, k - 1), padded[BLOCK * (k - 1)..BLOCK * k], Low(t), High(t))
  }

  // ---- the running state ----

  datatype Running = Running(h: Chain, t0: nat, t1: nat)

  /** One compression: the counter is advanced by a whole block first. */
  function Step(f: Compression): (Running, seq<Octet>) -> Running
  {
    (s: Running, block: seq<Octet>) =>
      var t0 := (s.t0 + 1024) % TWO64;
      var t1 := if t0 < 1024 then (s.t1 + 1) % TWO64 else s.t1;
      Running(f(s.h, block, t0, t1), t0, t1)
  }

  /** The two words carry correctly. */
  lemma CounterStep(x: nat)
    ensures (Low(x) + 1024) % TWO64 == Low(x + 1024)
    ensures (if (Low(x) + 1024) % TWO64 < 1024 then (High(x) + 1) % TWO64 else High(x)) == High(x + 1024)
  {
    var q, r := x / TWO64, x % TWO64;
    if r + 1024 < TWO64 {
      Numerals.QuotRem(q, TWO64, r + 1024);
    } else {
      Numerals.QuotRem(q + 1, TWO64, r + 1024 - TWO64);
      Wrap(q);
    }
  }

  lemma Wrap(q: nat)
    ensures (q + 1) % TWO64 == (q % TWO64 + 1) % TWO64
  {}

  lemma StepCounts(f: Compression, h: Chain, x: nat, block: seq<Octet>)
    ensures Step(f)(Running(h, Low(x), High(x)), block) ==
            Running(f(h, block, Low(x + 1024), High(x + 1024)), Low(x + 1024), High(x + 1024))
  {
    CounterStep(x);
    hide Low, High;
  }

  lemma RefNext(f: Compression, iv: Chain, padded: seq<Octet>, bits: nat, k: nat)
    requires BLOCK * (k + 1) <= |padded| && 1024 * (k + 1) <= bits
    ensures RefChain(f, iv, padded, bits, k + 1) ==
            f(RefChain(f, iv, padded, bits, k), padded[BLOCK * k..BLOCK * (k + 1)], Low(1024 * (k + 1)), High(1024 * (k + 1)))
  {
    hide Low, High;
  }

  /** While only whole message blocks have been compressed, the running state is the reference chain and
      the exact count of bits. */
  lemma {:induction false} RunIsRef(f: Compression, iv: Chain, padded: seq<Octet>, bits: nat, k: nat)
    requires BLOCK * k <= |padded| && 1024 * k <= bits
    ensures Run(Step(f), BLOCK, Running(iv, 0, 0), padded[..BLOCK * k]) ==
            Running(RefChain(f, iv, padded, bits, k), Low(1024 * k), High(1024 * k))
    ensures Rest(BLOCK, padded[..BLOCK * k]) == []
  {
    hide Run, Rest, Low, High, Step, RefChain;
    if k == 0 {
      RunNone(f, iv, padded, bits);
    } else {
      RunIsRef(f, iv, padded, bits, k - 1);
      var a, c := padded[..BLOCK * (k - 1)], padded[BLOCK * (k - 1)..BLOCK * k];
      assert padded[..BLOCK * k] == a + c;
      Fill(Step(f), BLOCK, Running(iv, 0, 0), a, c);
      assert [] + c == c;
      StepCounts(f, RefChain(f, iv, padded, bits, k - 1), 1024 * (k - 1), c);
      RefNext(f, iv, padded, bits, k - 1);
    }
  }

  lemma RunNone(f: Compression, iv: Chain, padded: seq<Octet>, bits: nat)
    ensures Run(Step(f), BLOCK, Running(iv, 0, 0), padded[..BLOCK * 0]) ==
            Running(RefChain(f, iv, padded, bits, 0), Low(1024 * 0), High(1024 * 0))
    ensures Rest(BLOCK, padded[..BLOCK * 0]) == []
  {
    assert padded[..0] == [];
  }

  // ---- closing ----

  /** The last bits of the message and the first one of the padding: `ub` masked to its top `n` bits. */
  function EndByte(ub: Octet, n: nat): Octet
    requires n < 8
  {
    match n
    case 0 => 0x80
    case 1 => (ub & 0xC0) | 0x40
    case 2 => (ub & 0xE0) | 0x20
    case 3 => (ub & 0xF0) | 0x10
    case 4 => (ub & 0xF8) | 0x08
    case 5 => (ub & 0xFC) | 0x04
    case 6 => (ub & 0xFE) | 0x02
    case _ => ub | 0x01
  }

  /** The low `k` bits of a number, as a byte. */
  function LowBits(x: nat, k: nat): Octet { if k == 0 then 0 else (LowBits(x / 2, k - 1) << 1) | (if x % 2 == 1 then 1 else 0) }

  function ByteOf(x: nat): Octet { LowBits(x, 8) }

  /** Big-endian. */
  function Be64(x: nat): (r: seq<Octet>)
    ensures |r| == 8
  {
    [ByteOf(x / 0x100_0000_0000_0000), ByteOf(x / 0x1_0000_0000_0000), ByteOf(x / 0x100_0000_0000), ByteOf(x / 0x1_0000_0000),
     ByteOf(x / 0x100_0000), ByteOf(x / 0x1_0000), ByteOf(x / 0x100), ByteOf(x)]
  }

  function LengthField(bits: nat): (r: seq<Octet>)
    ensures |r| == 16
  {
    Be64(High(bits)) + Be64(Low(bits))
  }

  /** What is appended to a message of `ptr` bytes beyond its last whole block and `n` bits of `ub`; the
      wide variant (BLAKE-512) sets the bit before the length field. */
  function PadBytes(ptr: nat, ub: Octet, n: nat, wide: bool, bits: nat): (r: seq<Octet>)
    requires ptr < BLOCK && n < 8
    ensures |r| == if 8 * ptr + n <= 894 then BLOCK - ptr else BLOCK - ptr + BLOCK
  {
    var e := EndByte(ub, n);
    var last: Octet := if wide then 1 else 0;
    if 8 * ptr + n <= 894 then
      (if ptr == 111 then [e | last] else [e] + ZeroBytes(110 - ptr) + [last]) + LengthField(bits)
    else [e] + ZeroBytes(127 - ptr) + ZeroBytes(111) + [last] + LengthField(bits)
  }

  lemma PadOne(ptr: nat, ub: Octet, n: nat, wide: bool, bits: nat, th: nat, tl: nat)
    requires n < 8 && ptr < BLOCK && 8 * ptr + n <= 894 && th == High(bits) && tl == Low(bits)
    ensures var e := EndByte(ub, n);
            var last: Octet := if wide then 1 else 0;
            PadBytes(ptr, ub, n, wide, bits) ==
              (if ptr == 111 then [e | last] else [e] + ZeroBytes(110 - ptr) + [last]) + Be64(th) + Be64(tl)
  {
    hide EndByte, Be64, High, Low, ZeroBytes;
  }

  lemma PadTwo(ptr: nat, ub: Octet, n: nat, wide: bool, bits: nat, th: nat, tl: nat)
    requires n < 8 && ptr < BLOCK && 8 * ptr + n > 894 && th == High(bits) && tl == Low(bits)
    ensures var last: Octet := if wide then 1 else 0;
            PadBytes(ptr, ub, n, wide, bits) ==
              [EndByte(ub, n)] + ZeroBytes(127 - ptr) + (ZeroBytes(111) + [last] + Be64(th) + Be64(tl))
  {
    hide EndByte, Be64, High, Low, ZeroBytes;
  }

  // ---- numbers as bits and bytes, most significant first ----

  /** The low `k` bits of a number. */
  function NumberBits(x: nat, k: nat): (r: seq<bool>)
    ensures |r| == k
  {
    if k == 0 then [] else NumberBits(x / 2, k - 1) + [x % 2 == 1]
  }

  /** The low `n` bytes of a number. */
  function BytesOf(x: nat, n: nat): (r: seq<Octet>)
    ensures |r| == n
  {
    if n == 0 then [] else BytesOf(x / 256, n - 1) + [ByteOf(x)]
  }

  function OctetBits(b: Octet, k: nat): seq<bool> { if k == 0 then [] else OctetBits(b >> 1, k - 1) + [b & 1 != 0] }

  lemma OneBitOf(b: Octet, k: nat)
    ensures OctetBits(b, k + 1) == OctetBits(b >> 1, k) + [b & 1 != 0] && OctetBits(b, 0) == []
  {}

  lemma ShiftedBits(b: Octet)
    ensures ByteBits(b) == [(b >> 7) & 1 != 0, (b >> 6) & 1 != 0, (b >> 5) & 1 != 0, (b >> 4) & 1 != 0,
                            (b >> 3) & 1 != 0, (b >> 2) & 1 != 0, (b >> 1) & 1 != 0, b & 1 != 0]
  {}

  lemma ShiftTwice(b: Octet)
    ensures b >> 1 >> 1 == b >> 2 && b >> 2 >> 1 == b >> 3 && b >> 3 >> 1 == b >> 4 && b >> 4 >> 1 == b >> 5
    ensures b >> 5 >> 1 == b >> 6 && b >> 6 >> 1 == b >> 7
  {}

  lemma ByteOctets(b: Octet)
    ensures ByteBits(b) == OctetBits(b, 8)
  {
    hide *;
    ShiftedBits(b);
    ShiftTwice(b);
    OneBitOf(b, 7);
    OneBitOf(b >> 1, 6);
    OneBitOf(b >> 2, 5);
    OneBitOf(b >> 3, 4);
    OneBitOf(b >> 4, 3);
    OneBitOf(b >> 5, 2);
    OneBitOf(b >> 6, 1);
    OneBitOf(b >> 7, 0);
    OneBitOf(b >> 7 >> 1, 0);
    Joined([], (b >> 7) & 1 != 0, (b >> 6) & 1 != 0, (b >> 5) & 1 != 0, (b >> 4) & 1 != 0,
           (b >> 3) & 1 != 0, (b >> 2) & 1 != 0, (b >> 1) & 1 != 0, b & 1 != 0);
  }

  lemma Joined<T>(s: seq<T>, a: T, b: T, c: T, d: T, e: T, f: T, g: T, h: T)
    ensures s + [a] + [b] + [c] + [d] + [e] + [f] + [g] + [h] == s + [a, b, c, d, e, f, g, h]
    ensures s == [] ==> s + [a, b, c, d, e, f, g, h] == [a, b, c, d, e, f, g, h]
  {
    var r, t := s + [a] + [b] + [c] + [d] + [e] + [f] + [g] + [h], s + [a, b, c, d, e, f, g, h];
    assert |r| == |t| && forall i | 0 <= i < |r| :: r[i] == t[i];
  }

  function Mask(k: nat): Octet { if k == 0 then 0 else (Mask(k - 1) << 1) | 1 }

  lemma ShiftIn(y: Octet, m: Octet, c: Octet)
    requires y & !m == 0 && m & 0x80 == 0 && (c == 0 || c == 1)
    ensures ((y << 1) | c) >> 1 == y && ((y << 1) | c) & 1 == c && ((y << 1) | c) & !((m << 1) | 1) == 0
  {}

  lemma Masks(k: nat)
    ensures k < 8 ==> Mask(k) & 0x80 == 0
  {
    assert Mask(0) == 0 && Mask(1) == 1 && Mask(2) == 3 && Mask(3) == 7;
    assert Mask(4) == 15 && Mask(5) == 31 && Mask(6) == 63 && Mask(7) == 127;
  }

  lemma {:induction false} LowBitsBits(x: nat, k: nat)
    requires k <= 8
    ensures LowBits(x, k) & !Mask(k) == 0 && OctetBits(LowBits(x, k), k) == NumberBits(x, k)
    decreases k
  {
    if k > 0 {
      LowBitsBits(x / 2, k - 1);
      Masks(k - 1);
      ShiftIn(LowBits(x / 2, k - 1), Mask(k - 1), if x % 2 == 1 then 1 else 0);
    }
  }

  lemma Halves(t: nat, r: nat)
    ensures (2 * t + r) / 2 == t + r / 2 && (2 * t + r) % 2 == r % 2
  {}

  lemma {:induction false} SplitBits(q: nat, r: nat, k: nat, j: nat)
    requires r < Pow2(j)
    ensures NumberBits(q * Pow2(j) + r, k + j) == NumberBits(q, k) + NumberBits(r, j)
    decreases j
  {
    hide NumberBits;
    if j > 0 {
      var p := Pow2(j - 1);
      assert Pow2(j) == 2 * p;
      hide Pow2;
      assert q * (2 * p) == 2 * (q * p);
      Halves(q * p, r);
      LastBitOf(q * (2 * p) + r, k + j);
      LastBitOf(r, j);
      SplitBits(q, r / 2, k, j - 1);
    } else {
      NoNumberBits(r);
      assert q * 1 + r == q;
    }
  }

  lemma LastBitOf(x: nat, n: nat)
    requires n > 0
    ensures NumberBits(x, n) == NumberBits(x / 2, n - 1) + [x % 2 == 1]
  {}

  lemma {:induction false} LowBitsRest(q: nat, r: nat, k: nat)
    ensures LowBits(q * Pow2(k) + r, k) == LowBits(r, k)
    decreases k
  {
    if k > 0 {
      var p := Pow2(k - 1);
      assert q * Pow2(k) == 2 * (q * p);
      Halves(q * p, r);
      LowBitsRest(q, r / 2, k - 1);
    }
  }

  lemma ByteHead(t: nat, r: nat)
    ensures (256 * t + r) / 256 == t + r / 256 && ByteOf(256 * t + r) == ByteOf(r)
  {
    assert Pow2(8) == 256;
    LowBitsRest(t, r, 8);
    hide LowBits;
  }

  lemma {:induction false} SplitBytes(q: nat, r: nat, k: nat, j: nat)
    requires r < Numerals.Pow(256, j)
    ensures BytesOf(q * Numerals.Pow(256, j) + r, k + j) == BytesOf(q, k) + BytesOf(r, j)
    decreases j
  {
    hide ByteOf;
    if j > 0 {
      var p := Numerals.Pow(256, j - 1);
      assert q * Numerals.Pow(256, j) == 256 * (q * p);
      ByteHead(q * p, r);
      SplitBytes(q, r / 256, k, j - 1);
    }
  }

  /** The bytes of a number hold its bits. */
  lemma {:induction false} BytesHoldBits(x: nat, n: nat)
    ensures Bits(ByteBits, BytesOf(x, n)) == NumberBits(x, 8 * n)
  {
    hide ByteBits, ByteOf, NumberBits;
    if n > 0 {
      BytesHoldBits(x / 256, n - 1);
      BitsAppend(ByteBits, BytesOf(x / 256, n - 1), [ByteOf(x)]);
      BitsOne(ByteBits, ByteOf(x));
      assert Pow2(8) == 256;
      SplitBits(x / 256, x % 256, 8 * (n - 1), 8);
      SplitBits(x / 256, x % 256, 0, 8);
      NoNumberBits(x / 256);
      assert [] + NumberBits(x % 256, 8) == NumberBits(x % 256, 8);
      ByteHolds(x);
    } else {
      assert NumberBits(x, 0) == [] by { NoNumberBits(x); }
    }
  }

  lemma ByteHolds(x: nat)
    ensures ByteBits(ByteOf(x)) == NumberBits(x, 8)
  {
    ByteOctets(LowBits(x, 8));
    LowBitsBits(x, 8);
    hide ByteBits, OctetBits, NumberBits, LowBits, Mask;
  }

  lemma NoNumberBits(x: nat)
    ensures NumberBits(x, 0) == []
  {}

  lemma DivDiv(x: nat, a: nat)
    requires a > 0
    ensures x / a / 256 == x / (256 * a)
  {
    var q, m := x / a, x % a;
    var t, r := q / 256, q % 256;
    assert x == q * a + m;
    assert (256 * t + r) * a == t * (256 * a) + r * a;
    Numerals.MulMono(r, 255, a, a);
    Numerals.DivUnique(x, 256 * a, t, r * a + m);
  }

  lemma EightBytes(x: nat)
    ensures BytesOf(x, 8) == Be64(x)
  {
    hide ByteOf;
    DivDiv(x, 0x100);
    DivDiv(x, 0x1_0000);
    DivDiv(x, 0x100_0000);
    DivDiv(x, 0x1_0000_0000);
    DivDiv(x, 0x100_0000_0000);
    DivDiv(x, 0x1_0000_0000_0000);
    LastByteOf(x, 7);
    LastByteOf(x / 0x100, 6);
    LastByteOf(x / 0x1_0000, 5);
    LastByteOf(x / 0x100_0000, 4);
    LastByteOf(x / 0x1_0000_0000, 3);
    LastByteOf(x / 0x100_0000_0000, 2);
    LastByteOf(x / 0x1_0000_0000_0000, 1);
    LastByteOf(x / 0x100_0000_0000_0000, 0);
    hide BytesOf;
  }

  lemma LastByteOf(x: nat, n: nat)
    ensures BytesOf(x, n + 1) == BytesOf(x / 256, n) + [ByteOf(x)] && BytesOf(x, 0) == []
  {
    hide ByteOf;
  }

  lemma Pow256of8()
    ensures Numerals.Pow(256, 8) == TWO64
  {
    assert Numerals.Pow(256, 2) == 0x1_0000;
    Numerals.PowAdd(256, 2, 2);
    Numerals.PowAdd(256, 4, 4);
    hide Numerals.Pow;
  }

  /** The length field is the 128-bit number of message bits. */
  lemma LengthBits(bits: nat)
    ensures Bits(ByteBits, LengthField(bits)) == NumberBits(bits, 128)
  {
    hide Be64, ByteOf, ByteBits, Bits, NumberBits, Numerals.Pow, BytesOf;
    var q, r := bits / TWO64, bits % TWO64;
    Pow256of8();
    EightBytes(q % TWO64);
    EightBytes(r);
    SplitBytes(q, r, 8, 8);
    SplitBytes(q / TWO64, q % TWO64, 0, 8);
    NoBytes(q / TWO64);
    assert [] + BytesOf(q % TWO64, 8) == BytesOf(q % TWO64, 8);
    BytesHoldBits(bits, 16);
  }

  lemma NoBytes(x: nat)
    ensures BytesOf(x, 0) == []
  {}

  // ---- the padding, bit by bit ----

  /** The bits of a byte, most significant first. */
  function ByteBits(b: Octet): (r: seq<bool>)
    ensures |r| == 8
  {
    [b & 128 != 0, b & 64 != 0, b & 32 != 0, b & 16 != 0, b & 8 != 0, b & 4 != 0, b & 2 != 0, b & 1 != 0]
  }

  lemma NoBits()
    ensures ByteBits(0) == Zeros(8)
  {}

  lemma LastBits(wide: bool)
    ensures ByteBits(if wide then 1 else 0) == Zeros(7) + [wide]
  {}

  // One lemma for each number of extra bits keeps the bit-vector reasoning to constants.

  lemma EndBits0(ub: Octet)
    ensures ByteBits(EndByte(ub, 0)) == ByteBits(ub)[..0] + [true] + Zeros(7)
    ensures ByteBits(EndByte(ub, 0) | 1) == ByteBits(ub)[..0] + [true] + Zeros(6) + [true]
  {}

  lemma EndBits1(ub: Octet)
    ensures ByteBits(EndByte(ub, 1)) == ByteBits(ub)[..1] + [true] + Zeros(6)
    ensures ByteBits(EndByte(ub, 1) | 1) == ByteBits(ub)[..1] + [true] + Zeros(5) + [true]
  {}

  lemma EndBits2(ub: Octet)
    ensures ByteBits(EndByte(ub, 2)) == ByteBits(ub)[..2] + [true] + Zeros(5)
    ensures ByteBits(EndByte(ub, 2) | 1) == ByteBits(ub)[..2] + [true] + Zeros(4) + [true]
  {}

  lemma EndBits3(ub: Octet)
    ensures ByteBits(EndByte(ub, 3)) == ByteBits(ub)[..3] + [true] + Zeros(4)
    ensures ByteBits(EndByte(ub, 3) | 1) == ByteBits(ub)[..3] + [true] + Zeros(3) + [true]
  {}

  lemma EndBits4(ub: Octet)
    ensures ByteBits(EndByte(ub, 4)) == ByteBits(ub)[..4] + [true] + Zeros(3)
    ensures ByteBits(EndByte(ub, 4) | 1) == ByteBits(ub)[..4] + [true] + Zeros(2) + [true]
  {}

  lemma EndBits5(ub: Octet)
    ensures ByteBits(EndByte(ub, 5)) == ByteBits(ub)[..5] + [true] + Zeros(2)
    ensures ByteBits(EndByte(ub, 5) | 1) == ByteBits(ub)[..5] + [true] + Zeros(1) + [true]
  {}

  lemma EndBits6(ub: Octet)
    ensures ByteBits(EndByte(ub, 6)) == ByteBits(ub)[..6] + [true] + Zeros(1)
    ensures ByteBits(EndByte(ub, 6) | 1) == ByteBits(ub)[..6] + [true] + Zeros(0) + [true]
  {}

  lemma EndBits7(ub: Octet)
    ensures ByteBits(EndByte(ub, 7)) == ByteBits(ub)[..7] + [true] + Zeros(0)
  {}

  /** The closing byte: the top bits of `ub`, a one, and zeros. */
  lemma EndBits(ub: Octet, n: nat)
    requires n < 8
    ensures ByteBits(EndByte(ub, n)) == ByteBits(ub)[..n] + [true] + Zeros(7 - n)
  {
    hide ByteBits, EndByte, Zeros;
    match n
    case 0 => EndBits0(ub);
    case 1 => EndBits1(ub);
    case 2 => EndBits2(ub);
    case 3 => EndBits3(ub);
    case 4 => EndBits4(ub);
    case 5 => EndBits5(ub);
    case 6 => EndBits6(ub);
    case _ => EndBits7(ub);
  }

  /** The closing byte with the last bit set as well. */
  lemma EndBitsSet(ub: Octet, n: nat)
    requires n < 7
    ensures ByteBits(EndByte(ub, n) | 1) == ByteBits(ub)[..n] + [true] + Zeros(6 - n) + [true]
  {
    hide ByteBits, EndByte, Zeros;
    match n
    case 0 => EndBits0(ub);
    case 1 => EndBits1(ub);
    case 2 => EndBits2(ub);
    case 3 => EndBits3(ub);
    case 4 => EndBits4(ub);
    case 5 => EndBits5(ub);
    case _ => EndBits6(ub);
  }

  /** How many zeros stand between the first one and the last bit before the length. */
  function PadZeros(ptr: nat, n: nat): nat
    requires ptr < BLOCK && n < 8
  {
    if 8 * ptr + n <= 894 then 894 - (8 * ptr + n) else 894 + 1024 - (8 * ptr + n)
  }

  lemma EndAndLast(ub: Octet, n: nat, wide: bool)
    requires n < 7
    ensures ByteBits(EndByte(ub, n) | (if wide then 1 else 0)) == ByteBits(ub)[..n] + [true] + Zeros(6 - n) + [wide]
  {
    hide ByteBits, EndByte;
    EndBits(ub, n);
    EndBitsSet(ub, n);
    OrNothing(EndByte(ub, n));
    if !wide { assert Zeros(7 - n) == Zeros(6 - n) + [false]; }
  }

  lemma OrNothing(b: Octet)
    ensures b | 0 == b
  {}

  lemma EndZerosLast(ub: Octet, n: nat, wide: bool, k: nat)
    requires n < 8
    ensures var last: Octet := if wide then 1 else 0;
            Bits(ByteBits, [EndByte(ub, n)] + ZeroBytes(k) + [last]) == ByteBits(ub)[..n] + [true] + Zeros(7 - n + 8 * k + 7) + [wide]
  {
    hide ByteBits, EndByte;
    var e := EndByte(ub, n);
    var last: Octet := if wide then 1 else 0;
    BitsAppend(ByteBits, [e] + ZeroBytes(k), [last]);
    BitsAppend(ByteBits, [e], ZeroBytes(k));
    BitsOne(ByteBits, e);
    BitsOne(ByteBits, last);
    NoBits();
    BitsZero(ByteBits, k);
    LastBits(wide);
    EndBits(ub, n);
    assert Zeros(7 - n) + Zeros(8 * k) + Zeros(7) == Zeros(7 - n + 8 * k + 7);
  }

  /** The padding is a one, fewer than 1024 zeros, a bit that tells the two sizes apart, and the number of message
      bits as a 128-bit number. */
  lemma PaddingBits(ptr: nat, ub: Octet, n: nat, wide: bool, bits: nat)
    requires ptr < BLOCK && n < 8
    ensures Bits(ByteBits, PadBytes(ptr, ub, n, wide, bits)) ==
            ByteBits(ub)[..n] + [true] + Zeros(PadZeros(ptr, n)) + [wide] + NumberBits(bits, 128)
    ensures PadZeros(ptr, n) < 1024 && (8 * ptr + n + 1 + PadZeros(ptr, n) + 1) % 1024 == 896
  {
    hide ByteBits, EndByte, Bits, LengthField, Zeros, ZeroBytes, NumberBits;
    var e := EndByte(ub, n);
    var last: Octet := if wide then 1 else 0;
    var len := LengthField(bits);
    LengthBits(bits);
    if 8 * ptr + n <= 894 {
      if ptr == 111 {
        BitsAppend(ByteBits, [e | last], len);
        BitsOne(ByteBits, e | last);
        EndAndLast(ub, n, wide);
      } else {
        BitsAppend(ByteBits, [e] + ZeroBytes(110 - ptr) + [last], len);
        EndZerosLast(ub, n, wide, 110 - ptr);
      }
    } else {
      ZeroBytesAppend(127 - ptr, 111);
      assert [e] + ZeroBytes(127 - ptr) + ZeroBytes(111) == [e] + ZeroBytes(127 - ptr + 111);
      BitsAppend(ByteBits, [e] + ZeroBytes(127 - ptr + 111) + [last], len);
      EndZerosLast(ub, n, wide, 127 - ptr + 111);
    }
  }

  /** Whole blocks that hold the message, a one, fewer than 1024 zeros, the size bit and the number of message bits. */
  ghost predicate IsPadded(padded: seq<Octet>, msg: seq<Octet>, ub: Octet, n: nat, wide: bool)
    requires n < 8
  {
    && |padded| % 128 == 0
    && exists z: nat :: z < 1024 && Bits(ByteBits, padded) ==
         Bits(ByteBits, msg) + ByteBits(ub)[..n] + [true] + Zeros(z) + [wide] + NumberBits(8 * |msg| + n, 128)
  }

  lemma PaddedRight(msg: seq<Octet>, ub: Octet, n: nat, wide: bool)
    requires n < 8
    ensures var padded := msg + PadBytes(|Rest(BLOCK, msg)|, ub, n, wide, 8 * |msg| + n);
            |padded| % BLOCK == 0 ==> IsPadded(padded, msg, ub, n, wide)
  {
    hide Rest, PadBytes, Bits, ByteBits, Zeros, NumberBits, PadZeros;
    var ptr, bits := |Rest(BLOCK, msg)|, 8 * |msg| + n;
    PaddingBits(ptr, ub, n, wide, bits);
    BitsAppend(ByteBits, msg, PadBytes(ptr, ub, n, wide, bits));
    var z := PadZeros(ptr, n);
    var a, b, c, d, e, f := Bits(ByteBits, msg), ByteBits(ub)[..n], [true], Zeros(z), [wide], NumberBits(bits, 128);
    assert a + (b + c + d + e + f) == a + b + c + d + e + f;
  }

  lemma ZeroBytesAppend(a: nat, b: nat)
    ensures ZeroBytes(a) + ZeroBytes(b) == ZeroBytes(a + b)
  {}

  class Context {
    const f: Compression
    const buf: array<Octet>
    var s: Running
    var ptr: nat
    ghost var base: Running
    ghost var fed: seq<Octet>

    /** The state comes from compressing the whole blocks of what was fed since `base`. */
    ghost predicate Valid()
      reads this, buf
    {
      && buf.Length == BLOCK && ptr < BLOCK && buf[..ptr] == Rest(BLOCK, fed)
      && s == Run(Step(f), BLOCK, base, fed)
    }

    constructor (f: Compression, iv: Chain)
      ensures Valid() && this.f == f && base == Running(iv, 0, 0) && fed == [] && fresh(buf)
    {
      this.f := f;
      buf := new Octet[BLOCK](_ => 0);
      s, ptr := Running(iv, 0, 0), 0;
      base, fed := Running(iv, 0, 0), [];
    }

    lemma Bounds()
      requires Valid()
      ensures ptr < BLOCK && ptr == |Rest(BLOCK, fed)| && s == Run(Step(f), BLOCK, base, fed)
    {
      assert |buf[..ptr]| == ptr;
    }

    /** Any split of the input into calls is the same: each call appends to what was fed. */
    method Update(data: seq<Octet>)
      requires Valid()
      modifies this, buf
      ensures Valid() && base == old(base) && fed == old(fed) + data
    {
      hide Context.Valid, Rest, Run;
      Bounds();
      if |data| < BLOCK - ptr {
        Keep(data);
        return;
      }
      var k: nat := 0;
      while k < |data|
        invariant k <= |data| && Valid() && base == old(base) && fed == old(fed) + data[..k]
      {
        Bounds();
        var clen := BLOCK - ptr;
        if clen > |data| - k { clen := |data| - k; }
        Feed(data[k..k + clen]);
        assert data[..k] + data[k..k + clen] == data[..k + clen];
        k := k + clen;
      }
      assert data[..k] == data;
    }

    method Keep(data: seq<Octet>)
      requires Valid() && |data| < BLOCK - ptr
      modifies this, buf
      ensures Valid() && base == old(base) && fed == old(fed) + data
    {
      hide Step, Run, Rest;
      Fill(Step(f), BLOCK, base, fed, data);
      CopyInto(buf, ptr, data);
      ptr := ptr + |data|;
      fed := fed + data;
    }

    method Feed(chunk: seq<Octet>)
      requires Valid() && 0 < |chunk| <= BLOCK - ptr
      modifies this, buf
      ensures Valid() && base == old(base) && fed == old(fed) + chunk
    {
      hide Run, Rest;
      Fill(Step(f), BLOCK, base, fed, chunk);
      CopyInto(buf, ptr, chunk);
      ptr := ptr + |chunk|;
      if ptr == BLOCK {
        var t0 := (s.t0 + 1024) % TWO64;
        var t1 := s.t1;
        if t0 < 1024 { t1 := (t1 + 1) % TWO64; }
        s := Running(f(s.h, buf[..], t0, t1), t0, t1);
        assert buf[..] == buf[..BLOCK];
        ptr := 0;
      }
      fed := fed + chunk;
    }

    /** Padding, the last one or two compressions, and the output of six or eight words. */
    method Close(ub: Octet, n: nat, words: nat) returns (digest: seq<Octet>)
      requires Valid() && n < 8 && words <= 8 && base == Running(base.h, 0, 0)
      modifies this, buf
      ensures |digest| == 8 * words
      ensures var bits := 8 * |old(fed)| + n;
              var padded := old(fed) + PadBytes(|Rest(BLOCK, old(fed))|, ub, n, words == 8, bits);
              && |padded| % BLOCK == 0 && IsPadded(padded, old(fed), ub, n, words == 8)
              && IsBigEndian(digest, RefChain(f, old(base.h), padded, bits, |padded| / BLOCK))
    {
      hide Context.Valid, Rest, Run, Step, RefChain, PadBytes, IsBigEndian, IsPadded;
      PaddedRight(fed, ub, n, words == 8);
      Finish(ub, n, words == 8);
      digest := WriteWords(s.h, words);
    }

    method Finish(ub: Octet, n: nat, wide: bool)
      requires Valid() && n < 8 && base == Running(base.h, 0, 0)
      modifies this, buf
      ensures var bits := 8 * |old(fed)| + n;
              var padded := old(fed) + PadBytes(|Rest(BLOCK, old(fed))|, ub, n, wide, bits);
              |padded| % BLOCK == 0 && s.h == RefChain(f, old(base.h), padded, bits, |padded| / BLOCK)
    {
      hide Context.Valid, Rest, Run, Step, EndByte, Be64, Low, High, RefChain, Presubtract, PadBytes, LengthField;
      Bounds();
      ghost var msg, iv, start := fed, base.h, s;
      ghost var bits := 8 * |msg| + n;
      var e := EndByte(ub, n);
      var last: Octet := if wide then 1 else 0;
      var bitLen := 8 * ptr + n;
      var tl, th := s.t0 + bitLen, s.t1;
      StartOf(f, iv, msg, s);
      LengthWords(|msg| / BLOCK, bitLen);
      var t := Presubtract(s.t0, s.t1, bitLen);
      Rebase(Running(s.h, t.0, t.1));
      if bitLen <= 894 {
        var tail := (if ptr == 111 then [e | last] else [e] + ZeroBytes(110 - ptr) + [last]) + Be64(th) + Be64(tl);
        PadOne(ptr, ub, n, wide, bits, th, tl);
        LastBlock(tail, iv, msg, bits, start);
      } else {
        var tail1 := [e] + ZeroBytes(127 - ptr);
        var tail2 := ZeroBytes(111) + [last] + Be64(th) + Be64(tl);
        PadTwo(ptr, ub, n, wide, bits, th, tl);
        LastTwoBlocks(tail1, tail2, iv, msg, bits, start);
      }
    }

    method LastBlock(tail: seq<Octet>, ghost iv: Chain, ghost msg: seq<Octet>, ghost bits: nat, ghost start: Running)
      requires Valid() && fed == Rest(BLOCK, msg) && Closing(f, iv, msg, bits, start, base) && |fed| + |tail| == BLOCK
      modifies this, buf
      ensures var padded := msg + tail; |padded| % BLOCK == 0 && s.h == RefChain(f, iv, padded, bits, |padded| / BLOCK)
    {
      hide Context.Valid, Rest, Run, Step, RefChain, Closing;
      ghost var from, rest := base, fed;
      Update(tail);
      Bounds();
      RunOne(Step(f), BLOCK, from, rest + tail);
      OneBlock(f, iv, msg, bits, tail, start, from);
    }

    method LastTwoBlocks(tail1: seq<Octet>, tail2: seq<Octet>, ghost iv: Chain, ghost msg: seq<Octet>, ghost bits: nat, ghost start: Running)
      requires Valid() && fed == Rest(BLOCK, msg) && Closing(f, iv, msg, bits, start, base)
      requires |fed| + |tail1| == BLOCK && |tail2| == BLOCK
      modifies this, buf
      ensures var padded := msg + (tail1 + tail2);
              |padded| % BLOCK == 0 && s.h == RefChain(f, iv, padded, bits, |padded| / BLOCK)
    {
      hide Context.Valid, Rest, Run, Step, RefChain, Closing;
      ghost var from, rest := base, fed;
      Update(tail1);
      Bounds();
      RunOne(Step(f), BLOCK, from, rest + tail1);
      ghost var mid := s;
      Rebase(Running(s.h, 0xFFFF_FFFF_FFFF_FC00, 0xFFFF_FFFF_FFFF_FFFF));
      Update(tail2);
      Bounds();
      assert [] + tail2 == tail2;
      RunOne(Step(f), BLOCK, Running(mid.h, 0xFFFF_FFFF_FFFF_FC00, 0xFFFF_FFFF_FFFF_FFFF), tail2);
      TwoBlocks(f, iv, msg, bits, tail1, tail2, start, from, mid);
    }

    /** Overwriting the counter: from here on, only the buffered bytes count as fed. */
    method Rebase(r: Running)
      requires Valid()
      modifies this
      ensures Valid() && s == r && base == r && fed == Rest(BLOCK, old(fed)) && ptr == old(ptr)
    {
      s, base, fed := r, r, Rest(BLOCK, fed);
    }
  }

  // ---- the output ----

  function Half(x: bv64): bv64 { x >> 1 }
  function LowBit(x: bv64): bool { x & 1 == 1 }
  function NextByte(x: bv64): bv64 { x >> 8 }

  /** The low `k` bits of a word, most significant first. */
  function WordBits(x: bv64, k: nat): (r: seq<bool>)
    ensures |r| == k
  {
    if k == 0 then [] else WordBits(Half(x), k - 1) + [LowBit(x)]
  }

  /** Each group of eight bytes holds the bits of the next word, most significant first. */
  ghost predicate IsBigEndian(s: seq<Octet>, h: Chain)
  {
    |s| <= 64 && forall k | 0 <= k < |s| / 8 :: Bits(ByteBits, s[8 * k..8 * (k + 1)]) == WordBits(h[k], 64)
  }

  function Low8(x: bv64): Octet { (x & 0xFF) as Octet }

  /** `sph_enc64be`. */
  function Encode(x: bv64): (r: seq<Octet>)
    ensures |r| == 8
  {
    [Low8(x >> 56), Low8(x >> 48), Low8(x >> 40), Low8(x >> 32), Low8(x >> 24), Low8(x >> 16), Low8(x >> 8), Low8(x)]
  }

  lemma Low8Bits(x: bv64)
    ensures var x1 := Half(x);
            var x2 := Half(x1);
            var x3 := Half(x2);
            var x4 := Half(x3);
            var x5 := Half(x4);
            var x6 := Half(x5);
            var x7 := Half(x6);
            && ByteBits(Low8(x)) == [LowBit(x7), LowBit(x6), LowBit(x5), LowBit(x4), LowBit(x3), LowBit(x2), LowBit(x1), LowBit(x)]
            && Half(x7) == NextByte(x)
  {}

  lemma OneWordBit(x: bv64, k: nat)
    ensures WordBits(x, k + 1) == WordBits(Half(x), k) + [LowBit(x)] && WordBits(x, 0) == []
  {
    hide Half, LowBit;
  }

  lemma OneByteOf(x: bv64, k: nat)
    ensures WordBits(x, k + 8) == WordBits(NextByte(x), k) + ByteBits(Low8(x))
  {
    hide *;
    Low8Bits(x);
    var x1 := Half(x);
    var x2 := Half(x1);
    var x3 := Half(x2);
    var x4 := Half(x3);
    var x5 := Half(x4);
    var x6 := Half(x5);
    var x7 := Half(x6);
    OneWordBit(x, k + 7);
    OneWordBit(x1, k + 6);
    OneWordBit(x2, k + 5);
    OneWordBit(x3, k + 4);
    OneWordBit(x4, k + 3);
    OneWordBit(x5, k + 2);
    OneWordBit(x6, k + 1);
    OneWordBit(x7, k);
    Joined(WordBits(NextByte(x), k), LowBit(x7), LowBit(x6), LowBit(x5), LowBit(x4), LowBit(x3), LowBit(x2), LowBit(x1), LowBit(x));
  }

  /** The low `n` bytes of a word, most significant first. */
  function WordBytes(x: bv64, n: nat): seq<Octet> { if n == 0 then [] else WordBytes(NextByte(x), n - 1) + [Low8(x)] }

  lemma {:induction false} WordBytesBits(x: bv64, n: nat)
    ensures Bits(ByteBits, WordBytes(x, n)) == WordBits(x, 8 * n)
    decreases n
  {
    hide ByteBits, Low8, NextByte, Half, LowBit;
    if n > 0 {
      WordBytesBits(NextByte(x), n - 1);
      hide WordBits, Bits;
      BitsAppend(ByteBits, WordBytes(NextByte(x), n - 1), [Low8(x)]);
      BitsOne(ByteBits, Low8(x));
      OneByteOf(x, 8 * (n - 1));
    }
  }

  lemma OneWordByte(x: bv64, n: nat)
    ensures WordBytes(x, n + 1) == WordBytes(NextByte(x), n) + [Low8(x)] && WordBytes(x, 0) == []
  {
    hide NextByte, Low8;
  }

  lemma EncodeByByte(x: bv64)
    ensures var x1 := NextByte(x);
            var x2 := NextByte(x1);
            var x3 := NextByte(x2);
            var x4 := NextByte(x3);
            var x5 := NextByte(x4);
            var x6 := NextByte(x5);
            var x7 := NextByte(x6);
            Encode(x) == [Low8(x7), Low8(x6), Low8(x5), Low8(x4), Low8(x3), Low8(x2), Low8(x1), Low8(x)]
  {}

  lemma EncodeBits(x: bv64)
    ensures Bits(ByteBits, Encode(x)) == WordBits(x, 64)
  {
    hide *;
    EncodeByByte(x);
    var x1 := NextByte(x);
    var x2 := NextByte(x1);
    var x3 := NextByte(x2);
    var x4 := NextByte(x3);
    var x5 := NextByte(x4);
    var x6 := NextByte(x5);
    var x7 := NextByte(x6);
    OneWordByte(x, 7);
    OneWordByte(x1, 6);
    OneWordByte(x2, 5);
    OneWordByte(x3, 4);
    OneWordByte(x4, 3);
    OneWordByte(x5, 2);
    OneWordByte(x6, 1);
    OneWordByte(x7, 0);
    OneWordByte(NextByte(x7), 0);
    Joined([], Low8(x7), Low8(x6), Low8(x5), Low8(x4), Low8(x3), Low8(x2), Low8(x1), Low8(x));
    WordBytesBits(x, 8);
  }

  method WriteWords(h: Chain, words: nat) returns (out: seq<Octet>)
    requires words <= 8
    ensures |out| == 8 * words && IsBigEndian(out, h)
  {
    out := [];
    assert IsBigEndian(out, h);
    hide IsBigEndian, Encode;
    var k: nat := 0;
    while k < words
      invariant k <= words && |out| == 8 * k && IsBigEndian(out, h)
    {
      EncodeBits(h[k]);
      WordAdded(out, h, k, Encode(h[k]));
      out := out + Encode(h[k]);
      k := k + 1;
    }
  }

  lemma WordAt(out: seq<Octet>, w: seq<Octet>, k: nat, j: nat)
    requires |out| == 8 * k && |w| == 8 && j <= k
    ensures (out + w)[8 * j..8 * (j + 1)] == if j < k then out[8 * j..8 * (j + 1)] else w
  {}

  lemma WordAdded(out: seq<Octet>, h: Chain, k: nat, w: seq<Octet>)
    requires |out| == 8 * k && k < 8 && IsBigEndian(out, h) && |w| == 8 && Bits(ByteBits, w) == WordBits(h[k], 64)
    ensures IsBigEndian(out + w, h)
  {
    hide Bits, WordBits, ByteBits;
    var r := out + w;
    assert |r| / 8 == k + 1;
    forall j | 0 <= j < |r| / 8 ensures Bits(ByteBits, r[8 * j..8 * (j + 1)]) == WordBits(h[j], 64)
    {
      WordAt(out, w, k, j);
    }
  }

  /** The close-time edit of the counter. */
  function Presubtract(t0: nat, t1: nat, bitLen: nat): (r: (nat, nat))
    requires bitLen < 1024 && t0 % 1024 == 0 && t0 < TWO64 && t1 < TWO64
  {
    if bitLen == 0 then (0xFFFF_FFFF_FFFF_FC00, 0xFFFF_FFFF_FFFF_FFFF)
    else if t0 == 0 then (0xFFFF_FFFF_FFFF_FC00 + bitLen, if t1 == 0 then TWO64 - 1 else t1 - 1)
    else (t0 - (1024 - bitLen), t1)
  }

  /** The words of a whole number of blocks. */
  lemma WholeBlocks(k: nat)
    ensures Low(1024 * k) % 1024 == 0 && Low(1024 * k) + 1023 < TWO64 && High(1024 * k) < TWO64
  {
    var q := 1024 * k / TWO64;
    assert Low(1024 * k) == 1024 * k - q * TWO64 == 1024 * (k - q * 0x40_0000_0000_0000);
  }

  lemma LengthWords(k: nat, bitLen: nat)
    requires bitLen < 1024
    ensures Low(1024 * k) % 1024 == 0 && Low(1024 * k) < TWO64 && High(1024 * k) < TWO64
    ensures Low(1024 * k) + bitLen == Low(1024 * k + bitLen) && High(1024 * k) == High(1024 * k + bitLen)
  {
    WholeBlocks(k);
    Numerals.QuotRem(1024 * k / TWO64, TWO64, Low(1024 * k) + bitLen);
  }

  /** After the edit, advancing by a whole block gives the number of message bits, or 0 for none. */
  lemma PresubtractRight(f: Compression, h: Chain, k: nat, bitLen: nat, block: seq<Octet>)
    requires bitLen < 1024
    ensures Low(1024 * k) % 1024 == 0 && Low(1024 * k) < TWO64 && High(1024 * k) < TWO64
    ensures var p := Presubtract(Low(1024 * k), High(1024 * k), bitLen);
            var t := if bitLen == 0 then 0 else 1024 * k + bitLen;
            Step(f)(Running(h, p.0, p.1), block) == Running(f(h, block, Low(t), High(t)), Low(t), High(t))
  {
    LengthWords(k, bitLen);
    var t0, t1 := Low(1024 * k), High(1024 * k);
    assert Low(0) == 0 && High(0) == 0;
    hide Low, High;
    if bitLen != 0 && t0 != 0 {
      assert (t0 - (1024 - bitLen) + 1024) % TWO64 == t0 + bitLen;
    }
  }

  /** The state before closing: the reference chain after the whole blocks, and their bit count. */
  lemma StartOf(f: Compression, iv: Chain, msg: seq<Octet>, s: Running)
    requires s == Run(Step(f), BLOCK, Running(iv, 0, 0), msg)
    ensures var k := |msg| / BLOCK;
            && BLOCK * k <= |msg| && Rest(BLOCK, msg) == msg[BLOCK * k..]
            && s.t0 == Low(1024 * k) && s.t1 == High(1024 * k)
            && forall pad: seq<Octet>, bits: nat | bits >= 8 * |msg| :: s.h == RefChain(f, iv, msg + pad, bits, k)
  {
    hide Run, Low, High, Step, RefChain;
    var k := |msg| / BLOCK;
    RunIsRef(f, iv, msg, 8 * |msg|, k);
    var a, b := msg[..BLOCK * k], msg[BLOCK * k..];
    assert msg == a + b && [] + b == b;
    RunAppend(Step(f), BLOCK, Running(iv, 0, 0), a, b);
    RunShort(Step(f), Run(Step(f), BLOCK, Running(iv, 0, 0), a), b);
    forall pad: seq<Octet>, bits: nat | bits >= 8 * |msg| ensures s.h == RefChain(f, iv, msg + pad, bits, k)
    {
      RunIsRef(f, iv, msg + pad, bits, k);
      assert (msg + pad)[..BLOCK * k] == a;
    }
  }

  lemma RunShort(step: (Running, seq<Octet>) -> Running, s: Running, b: seq<Octet>)
    requires |b| < BLOCK
    ensures Run(step, BLOCK, s, b) == s && Rest(BLOCK, b) == b
  {}

  lemma RefLast(f: Compression, iv: Chain, padded: seq<Octet>, bits: nat, k: nat)
    requires |padded| >= BLOCK * (k + 1)
    ensures var t := Counter(bits, k);
            RefChain(f, iv, padded, bits, k + 1) ==
            f(RefChain(f, iv, padded, bits, k), padded[BLOCK * k..BLOCK * (k + 1)], Low(t), High(t))
  {}

  /** `from` is the state after the whole blocks of a message of so many bits, its counter edited. */
  ghost predicate Closing(f: Compression, iv: Chain, msg: seq<Octet>, bits: nat, start: Running, from: Running)
  {
    && start == Run(Step(f), BLOCK, Running(iv, 0, 0), msg) && 8 * |msg| <= bits < 8 * |msg| + 8
    && var bitLen := bits - 1024 * (|msg| / BLOCK);
       && 0 <= bitLen < 1024 && start.t0 % 1024 == 0 && start.t0 < TWO64 && start.t1 < TWO64
       && var p := Presubtract(start.t0, start.t1, bitLen);
          from == Running(start.h, p.0, p.1)
  }

  lemma MultipleOf(k: nat, size: nat)
    requires size == BLOCK * k
    ensures size % BLOCK == 0 && size / BLOCK == k
  {}

  /** The compression after the edit is the reference one, for the block that holds the end of the message. */
  lemma EndBlock(f: Compression, iv: Chain, msg: seq<Octet>, bits: nat, pad: seq<Octet>, start: Running, from: Running, k: nat)
    requires Closing(f, iv, msg, bits, start, from) && k == |msg| / BLOCK && |msg| + |pad| >= BLOCK * (k + 1)
    ensures Step(f)(from, (msg + pad)[BLOCK * k..BLOCK * (k + 1)]).h == RefChain(f, iv, msg + pad, bits, k + 1)
  {
    hide Run, Low, High, Step, RefChain, Presubtract;
    StartOf(f, iv, msg, start);
    PresubtractRight(f, start.h, k, bits - 1024 * k, (msg + pad)[BLOCK * k..BLOCK * (k + 1)]);
    RefLast(f, iv, msg + pad, bits, k);
  }

  lemma BlockOf(msg: seq<Octet>, k: nat, tail: seq<Octet>, more: seq<Octet>)
    requires BLOCK * k <= |msg| && |msg| + |tail| == BLOCK * (k + 1)
    ensures (msg + (tail + more))[BLOCK * k..BLOCK * (k + 1)] == msg[BLOCK * k..] + tail
  {}

  lemma RestOf(f: Compression, iv: Chain, msg: seq<Octet>, bits: nat, start: Running, from: Running)
    requires Closing(f, iv, msg, bits, start, from)
    ensures BLOCK * (|msg| / BLOCK) <= |msg| && Rest(BLOCK, msg) == msg[BLOCK * (|msg| / BLOCK)..]
  {
    hide Run, Low, High, Step, RefChain, Presubtract;
    StartOf(f, iv, msg, start);
  }

  lemma OneBlock(f: Compression, iv: Chain, msg: seq<Octet>, bits: nat, tail: seq<Octet>, start: Running, from: Running)
    requires Closing(f, iv, msg, bits, start, from) && |Rest(BLOCK, msg)| + |tail| == BLOCK
    ensures var padded := msg + tail;
            |padded| % BLOCK == 0 &&
            Step(f)(from, Rest(BLOCK, msg) + tail).h == RefChain(f, iv, padded, bits, |padded| / BLOCK)
  {
    hide Rest, Closing, Step, RefChain;
    RestOf(f, iv, msg, bits, start, from);
    var k := |msg| / BLOCK;
    MultipleOf(k + 1, |msg + tail|);
    EndBlock(f, iv, msg, bits, tail, start, from, k);
    BlockOf(msg, k, tail, []);
    assert tail + [] == tail;
  }

  lemma TwoBlocks(f: Compression, iv: Chain, msg: seq<Octet>, bits: nat, tail1: seq<Octet>, tail2: seq<Octet>, start: Running, from: Running, mid: Running)
    requires Closing(f, iv, msg, bits, start, from) && |Rest(BLOCK, msg)| + |tail1| == BLOCK && |tail2| == BLOCK
    requires mid == Step(f)(from, Rest(BLOCK, msg) + tail1)
    ensures var padded := msg + (tail1 + tail2);
            |padded| % BLOCK == 0 &&
            Step(f)(Running(mid.h, 0xFFFF_FFFF_FFFF_FC00, 0xFFFF_FFFF_FFFF_FFFF), tail2).h == RefChain(f, iv, padded, bits, |padded| / BLOCK)
  {
    BitsBelow(f, iv, msg, bits, start, from);
    hide Rest, Closing, Step, RefChain, Counter, Low, High;
    RestOf(f, iv, msg, bits, start, from);
    var k := |msg| / BLOCK;
    var padded := msg + (tail1 + tail2);
    MultipleOf(k + 2, |padded|);
    EndBlock(f, iv, msg, bits, tail1 + tail2, start, from, k);
    BlockOf(msg, k, tail1, tail2);
    assert padded[BLOCK * (k + 1)..BLOCK * (k + 2)] == tail2;
    NoMessageBits(f, mid.h, tail2);
    RefLast(f, iv, padded, bits, k + 1);
  }

  lemma BitsBelow(f: Compression, iv: Chain, msg: seq<Octet>, bits: nat, start: Running, from: Running)
    requires Closing(f, iv, msg, bits, start, from)
    ensures Counter(bits, |msg| / BLOCK + 1) == 0
  {}

  lemma NoMessageBits(f: Compression, h: Chain, block: seq<Octet>)
    ensures Step(f)(Running(h, 0xFFFF_FFFF_FFFF_FC00, 0xFFFF_FFFF_FFFF_FFFF), block) ==
            Running(f(h, block, Low(0), High(0)), Low(0), High(0))
  {}
}
