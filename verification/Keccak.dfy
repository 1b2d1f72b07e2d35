/** The Keccak sponge: streaming input, padding and output, proved equal to plain Keccak. */
module Keccak {
  import opened KeccakF
  import opened Stream
  import Fips202
  import Numerals

  // ---- plain Keccak ----

  function Zero(): State
  {
    var o := Lane(0);
    State(o, o, o, o, o, o, o, o, o, o, o, o, o, o, o, o, o, o, o, o, o, o, o, o, o)
  }

  /** Eight bytes as a word, least significant first. */
  function Gather(b0: Octet, b1: Octet, b2: Octet, b3: Octet, b4: Octet, b5: Octet, b6: Octet, b7: Octet): Word
  {
    (b0 as Word) | ((b1 as Word) << 8) | ((b2 as Word) << 16) | ((b3 as Word) << 24)
    | ((b4 as Word) << 32) | ((b5 as Word) << 40) | ((b6 as Word) << 48) | ((b7 as Word) << 56)
  }

  function Decode(buf: seq<Octet>, i: nat): Lane
    requires 8 * i + 8 <= |buf|
  {
    Lane(Gather(buf[8 * i], buf[8 * i + 1], buf[8 * i + 2], buf[8 * i + 3], buf[8 * i + 4], buf[8 * i + 5], buf[8 * i + 6], buf[8 * i + 7]))
  }

  /** Lane number `i` with its part of the block added. */
  function Fed(a: Lane, block: seq<Octet>, i: nat): Lane
  {
    if 8 * i + 8 <= |block| then Add(a, Decode(block, i)) else a
  }

  function XorIn(s: State, b: seq<Octet>): State
  {
    s.(a00 := Fed(s.a00, b, 0), a10 := Fed(s.a10, b, 1), a20 := Fed(s.a20, b, 2), a30 := Fed(s.a30, b, 3), a40 := Fed(s.a40, b, 4),
       a01 := Fed(s.a01, b, 5), a11 := Fed(s.a11, b, 6), a21 := Fed(s.a21, b, 7), a31 := Fed(s.a31, b, 8), a41 := Fed(s.a41, b, 9),
       a02 := Fed(s.a02, b, 10), a12 := Fed(s.a12, b, 11), a22 := Fed(s.a22, b, 12), a32 := Fed(s.a32, b, 13), a42 := Fed(s.a42, b, 14),
       a03 := Fed(s.a03, b, 15), a13 := Fed(s.a13, b, 16), a23 := Fed(s.a23, b, 17))
  }

  /** Absorb one block. */
  function Absorb(s: State, block: seq<Octet>): State { PlainRounds(XorIn(s, block), 24) }

  /** The lanes in output order. */
  function Wide(s: State, i: nat): Lane
  {
    match i
    case 0 => s.a00 case 1 => s.a10 case 2 => s.a20 case 3 => s.a30 case 4 => s.a40
    case 5 => s.a01 case 6 => s.a11 case _ => s.a21
  }

  function Low(v: Word): Octet { (v & 0xFF) as Octet }

  /** Byte `k` of a lane. */
  function LaneByte(v: Lane, k: nat): Octet
  {
    match k
    case 0 => Low(v.w) case 1 => Low(v.w >> 8) case 2 => Low(v.w >> 16) case 3 => Low(v.w >> 24)
    case 4 => Low(v.w >> 32) case 5 => Low(v.w >> 40) case 6 => Low(v.w >> 48) case _ => Low(v.w >> 56)
  }

  function Encode(v: Lane): (r: seq<Octet>)
    ensures |r| == 8
  {
    [LaneByte(v, 0), LaneByte(v, 1), LaneByte(v, 2), LaneByte(v, 3), LaneByte(v, 4), LaneByte(v, 5), LaneByte(v, 6), LaneByte(v, 7)]
  }

  function Output(s: State, n: nat): (r: seq<Octet>)
    ensures |r| == 8 * n
  {
    if n == 0 then [] else Output(s, n - 1) + Encode(Wide(s, n - 1))
  }

  /** The plain hash of a padded message. */
  function PlainHash(lim: nat, padded: seq<Octet>, d: nat): (r: seq<Octet>)
    requires lim > 0 && d <= 64
    ensures |r| == d
  {
    Output(Run(Absorb, lim, Zero(), padded), (d + 7) / 8)[..d]
  }

  // ---- complemented lanes and input ----

  lemma FedNot(a: Lane, b: seq<Octet>, i: nat)
    ensures Fed(Not(a), b, i) == Not(Fed(a, b, i))
  {
    hide Add, Not, Decode;
    if 8 * i + 8 <= |b| { AddNot(a, Decode(b, i)); }
  }

  lemma XorInComplement(s: State, b: seq<Octet>)
    ensures XorIn(Between(s), b) == Between(XorIn(s, b))
  {
    hide Fed, Not;
    FedNot(s.a10, b, 1);
    FedNot(s.a20, b, 2);
    FedNot(s.a31, b, 8);
    FedNot(s.a22, b, 12);
    FedNot(s.a23, b, 17);
  }

  // ---- padding: pad10*1 of section 5.1 of FIPS 202 ----

  /** The bits of a byte, least significant first. */
  function ByteBits(b: Octet): (r: seq<bool>)
    ensures |r| == 8
  {
    [b & 1 != 0, b & 2 != 0, b & 4 != 0, b & 8 != 0, b & 16 != 0, b & 32 != 0, b & 64 != 0, b & 128 != 0]
  }

  /** The extra message bits: the `n` most significant bits of `ub`, lowest of them first. */
  function ExtraBits(ub: Octet, n: nat): (r: seq<bool>)
    requires n < 8
    ensures |r| == n
  {
    ByteBits(ub)[8 - n..]
  }

  /** `(0x100 | ub) >> (8 - n)`: the extra bits and the first bit of the padding. */
  function EndByte(ub: Octet, n: nat): Octet
    requires n < 8
  {
    var w := 0x100 | (ub as bv16);
    match n
    case 0 => 1
    case 1 => (w >> 7) as Octet
    case 2 => (w >> 6) as Octet
    case 3 => (w >> 5) as Octet
    case 4 => (w >> 4) as Octet
    case 5 => (w >> 3) as Octet
    case 6 => (w >> 2) as Octet
    case _ => (w >> 1) as Octet
  }

  /** The bytes handed over when closing with `ptr` bytes buffered. */
  function PadBytes(ptr: nat, lim: nat, ub: Octet, n: nat): (r: seq<Octet>)
    requires ptr < lim && n < 8
    ensures |r| == if ptr == lim - 1 && n == 7 then lim + 1 else lim - ptr
  {
    var eb := EndByte(ub, n);
    if ptr == lim - 1 then
      if n == 7 then [eb] + ZeroBytes(lim - 1) + [0x80] else [eb | 0x80]
    else [eb] + ZeroBytes(lim - ptr - 2) + [0x80]
  }

  // One lemma for each number of extra bits keeps the bit-vector reasoning to constant shifts.

  lemma EndBits0(ub: Octet)
    ensures ByteBits(EndByte(ub, 0)) == ExtraBits(ub, 0) + [true] + Zeros(7)
    ensures ByteBits(EndByte(ub, 0) | 0x80) == ExtraBits(ub, 0) + [true] + Zeros(6) + [true]
  {}

  lemma EndBits1(ub: Octet)
    ensures ByteBits(EndByte(ub, 1)) == ExtraBits(ub, 1) + [true] + Zeros(6)
    ensures ByteBits(EndByte(ub, 1) | 0x80) == ExtraBits(ub, 1) + [true] + Zeros(5) + [true]
  {}

  lemma EndBits2(ub: Octet)
    ensures ByteBits(EndByte(ub, 2)) == ExtraBits(ub, 2) + [true] + Zeros(5)
    ensures ByteBits(EndByte(ub, 2) | 0x80) == ExtraBits(ub, 2) + [true] + Zeros(4) + [true]
  {}

  lemma EndBits3(ub: Octet)
    ensures ByteBits(EndByte(ub, 3)) == ExtraBits(ub, 3) + [true] + Zeros(4)
    ensures ByteBits(EndByte(ub, 3) | 0x80) == ExtraBits(ub, 3) + [true] + Zeros(3) + [true]
  {}

  lemma EndBits4(ub: Octet)
    ensures ByteBits(EndByte(ub, 4)) == ExtraBits(ub, 4) + [true] + Zeros(3)
    ensures ByteBits(EndByte(ub, 4) | 0x80) == ExtraBits(ub, 4) + [true] + Zeros(2) + [true]
  {}

  lemma EndBits5(ub: Octet)
    ensures ByteBits(EndByte(ub, 5)) == ExtraBits(ub, 5) + [true] + Zeros(2)
    ensures ByteBits(EndByte(ub, 5) | 0x80) == ExtraBits(ub, 5) + [true] + Zeros(1) + [true]
  {}

  lemma EndBits6(ub: Octet)
    ensures ByteBits(EndByte(ub, 6)) == ExtraBits(ub, 6) + [true] + Zeros(1)
    ensures ByteBits(EndByte(ub, 6) | 0x80) == ExtraBits(ub, 6) + [true] + Zeros(0) + [true]
  {}

  lemma EndBits7(ub: Octet)
    ensures ByteBits(EndByte(ub, 7)) == ExtraBits(ub, 7) + [true] + Zeros(0)
  {}

  /** The closing byte: extra bits, a one, and zeros or zeros and the last one. */
  lemma EndBits(ub: Octet, n: nat)
    requires n < 8
    ensures ByteBits(EndByte(ub, n)) == ExtraBits(ub, n) + [true] + Zeros(7 - n)
    ensures n < 7 ==> ByteBits(EndByte(ub, n) | 0x80) == ExtraBits(ub, n) + [true] + Zeros(6 - n) + [true]
  {
    hide ByteBits, EndByte, ExtraBits, Zeros;
    match n
    case 0 => EndBits0(ub);
    case 1 => EndBits1(ub);
    case 2 => EndBits2(ub);
    case 3 => EndBits3(ub);
    case 4 => EndBits4(ub);
    case 5 => EndBits5(ub);
    case 6 => EndBits6(ub);
    case _ => EndBits7(ub);
  }

  lemma NoBits()
    ensures ByteBits(0) == Zeros(8)
  {}

  lemma LastBits()
    ensures ByteBits(0x80) == Zeros(7) + [true]
  {}

  /** How many zeros stand between the two ones. */
  function PadZeros(ptr: nat, lim: nat, n: nat): nat
    requires ptr < lim && n < 8
  {
    if ptr == lim - 1 then if n == 7 then 8 * lim - 1 else 6 - n
    else 8 * (lim - ptr) - n - 2
  }

  lemma LongPad(eb: Octet, x: seq<bool>, k: nat, n: nat)
    requires n < 8 && |x| == n && ByteBits(eb) == x + [true] + Zeros(7 - n)
    ensures Bits(ByteBits, [eb] + ZeroBytes(k) + [0x80]) == x + [true] + Zeros(7 - n + 8 * k + 7) + [true]
  {
    hide ByteBits;
    BitsAppend(ByteBits, [eb] + ZeroBytes(k), [0x80]);
    BitsAppend(ByteBits, [eb], ZeroBytes(k));
    BitsOne(ByteBits, eb);
    BitsOne(ByteBits, 0x80);
    NoBits();
    BitsZero(ByteBits, k);
    LastBits();
    assert Zeros(7 - n) + Zeros(8 * k) + Zeros(7) == Zeros(7 - n + 8 * k + 7);
  }

  /** The padding is a one, fewer zeros than a block has bits, and a one, up to the end of a block. */
  lemma PaddingIsPad101(msg: seq<Octet>, lim: nat, ub: Octet, n: nat)
    requires lim > 0 && n < 8
    ensures var ptr := |Rest(lim, msg)|;
            var z := PadZeros(ptr, lim, n);
            && Bits(ByteBits, msg + PadBytes(ptr, lim, ub, n)) == Bits(ByteBits, msg) + ExtraBits(ub, n) + [true] + Zeros(z) + [true]
            && z < 8 * lim && Rest(lim, msg + PadBytes(ptr, lim, ub, n)) == []
  {
    hide PadBytes, Rest, Bits, PadZeros, ExtraBits, Zeros, ByteBits;
    var ptr := |Rest(lim, msg)|;
    var pad := PadBytes(ptr, lim, ub, n);
    PadBits(ptr, lim, ub, n);
    PadCompletes(msg, lim, pad);
    BitsAppend(ByteBits, msg, pad);
  }

  lemma PadBits(ptr: nat, lim: nat, ub: Octet, n: nat)
    requires ptr < lim && n < 8
    ensures Bits(ByteBits, PadBytes(ptr, lim, ub, n)) == ExtraBits(ub, n) + [true] + Zeros(PadZeros(ptr, lim, n)) + [true]
    ensures PadZeros(ptr, lim, n) < 8 * lim
  {
    hide ByteBits, EndByte, ExtraBits, Bits, ZeroBytes, Zeros;
    var eb := EndByte(ub, n);
    EndBits(ub, n);
    if ptr == lim - 1 {
      if n == 7 { LongPad(eb, ExtraBits(ub, n), lim - 1, n); } else { BitsOne(ByteBits, eb | 0x80); }
    } else {
      LongPad(eb, ExtraBits(ub, n), lim - ptr - 2, n);
    }
  }

  lemma PadCompletes(msg: seq<Octet>, lim: nat, pad: seq<Octet>)
    requires lim > 0
    requires |pad| == lim - |Rest(lim, msg)| || |pad| == lim + (lim - |Rest(lim, msg)|)
    ensures Rest(lim, msg + pad) == []
  {
    hide Rest;
    RunAppend((s: nat, b: seq<Octet>) => s, lim, 0, msg, pad);
    TwoBlocks(lim, Rest(lim, msg) + pad);
  }

  lemma TwoBlocks(lim: nat, r: seq<Octet>)
    requires lim > 0 && (|r| == lim || |r| == lim + lim)
    ensures Rest(lim, r) == []
  {
    hide Rest;
    var step := (s: nat, b: seq<Octet>) => s;
    if |r| == lim {
      RunOne(step, lim, 0, r);
    } else {
      RunOne(step, lim, 0, r[..lim]);
      RunOne(step, lim, 0, r[lim..]);
      RunAppend(step, lim, 0, r[..lim], r[lim..]);
      assert r[..lim] + r[lim..] == r && [] + r[lim..] == r[lim..];
    }
  }

  // ---- the sponge on bits ----

  lemma SplitZ(z: bv6)
    ensures z as nat == 8 * ((z >> 3) as nat) + (z & 7) as nat && (z >> 3) as nat < 8 && (z & 7) as nat < 8
  {}

  lemma ByteBitAt(b: Octet, j: bv6)
    requires j < 8
    ensures ByteBits(b)[j as nat] == ((b >> j) & 1 == 1)
  {
    if j == 0 {} else if j == 1 {} else if j == 2 {} else if j == 3 {} else if j == 4 {} else if j == 5 {} else if j == 6 {} else { assert j == 7; }
  }

  function Pick(k: bv6, b0: Octet, b1: Octet, b2: Octet, b3: Octet, b4: Octet, b5: Octet, b6: Octet, b7: Octet): Octet
  {
    if k == 0 then b0 else if k == 1 then b1 else if k == 2 then b2 else if k == 3 then b3
    else if k == 4 then b4 else if k == 5 then b5 else if k == 6 then b6 else b7
  }

  lemma GatherBit(b0: Octet, b1: Octet, b2: Octet, b3: Octet, b4: Octet, b5: Octet, b6: Octet, b7: Octet, z: bv6)
    ensures Fips202.BitW(Gather(b0, b1, b2, b3, b4, b5, b6, b7), z) ==
            ((Pick(z >> 3, b0, b1, b2, b3, b4, b5, b6, b7) >> (z & 7)) & 1 == 1)
  {}

  lemma PickAt(s: seq<Octet>, i: nat, k: bv6)
    requires 8 * i + 8 <= |s| && k < 8
    ensures (k as nat) < 8
    ensures Pick(k, s[8 * i], s[8 * i + 1], s[8 * i + 2], s[8 * i + 3], s[8 * i + 4], s[8 * i + 5], s[8 * i + 6], s[8 * i + 7]) ==
            s[8 * i + k as nat]
  {}

  /** A lane is read from the bits of the block in order. */
  lemma DecodeBit(s: seq<Octet>, i: nat, z: bv6)
    requires 8 * i + 8 <= |s|
    ensures |Bits(ByteBits, s)| == 8 * |s| && (z as nat) < 64 && 64 * i + z as nat < |Bits(ByteBits, s)|
    ensures Fips202.Bit(Decode(s, i), z) == Bits(ByteBits, s)[64 * i + z as nat]
  {
    hide ByteBits, Gather, Pick, Bits, Fips202.BitW;
    SplitZ(z);
    GatherBit(s[8 * i], s[8 * i + 1], s[8 * i + 2], s[8 * i + 3], s[8 * i + 4], s[8 * i + 5], s[8 * i + 6], s[8 * i + 7], z);
    PickAt(s, i, z >> 3);
    ByteBitAt(s[8 * i + (z >> 3) as nat], z & 7);
    BitsAt(ByteBits, s, 8 * i + (z >> 3) as nat, (z & 7) as nat);
  }

  lemma LowBit0(v: Lane, z: bv6)
    requires z >> 3 == 0
    ensures ((LaneByte(v, 0) >> (z & 7)) & 1 == 1) == Fips202.Bit(v, z) && (z >> 3) as nat == 0
  {}

  lemma LowBit1(v: Lane, z: bv6)
    requires z >> 3 == 1
    ensures ((LaneByte(v, 1) >> (z & 7)) & 1 == 1) == Fips202.Bit(v, z) && (z >> 3) as nat == 1
  {}

  lemma LowBit2(v: Lane, z: bv6)
    requires z >> 3 == 2
    ensures ((LaneByte(v, 2) >> (z & 7)) & 1 == 1) == Fips202.Bit(v, z) && (z >> 3) as nat == 2
  {}

  lemma LowBit3(v: Lane, z: bv6)
    requires z >> 3 == 3
    ensures ((LaneByte(v, 3) >> (z & 7)) & 1 == 1) == Fips202.Bit(v, z) && (z >> 3) as nat == 3
  {}

  lemma LowBit4(v: Lane, z: bv6)
    requires z >> 3 == 4
    ensures ((LaneByte(v, 4) >> (z & 7)) & 1 == 1) == Fips202.Bit(v, z) && (z >> 3) as nat == 4
  {}

  lemma LowBit5(v: Lane, z: bv6)
    requires z >> 3 == 5
    ensures ((LaneByte(v, 5) >> (z & 7)) & 1 == 1) == Fips202.Bit(v, z) && (z >> 3) as nat == 5
  {}

  lemma LowBit6(v: Lane, z: bv6)
    requires z >> 3 == 6
    ensures ((LaneByte(v, 6) >> (z & 7)) & 1 == 1) == Fips202.Bit(v, z) && (z >> 3) as nat == 6
  {}

  lemma LowBit7(v: Lane, z: bv6)
    requires z >> 3 == 7
    ensures ((LaneByte(v, 7) >> (z & 7)) & 1 == 1) == Fips202.Bit(v, z) && (z >> 3) as nat == 7
  {}

  lemma LaneByteBit(v: Lane, z: bv6)
    ensures ((LaneByte(v, (z >> 3) as nat) >> (z & 7)) & 1 == 1) == Fips202.Bit(v, z)
  {
    hide LaneByte, Fips202.Bit;
    if z >> 3 == 0 { LowBit0(v, z); }
    else if z >> 3 == 1 { LowBit1(v, z); }
    else if z >> 3 == 2 { LowBit2(v, z); }
    else if z >> 3 == 3 { LowBit3(v, z); }
    else if z >> 3 == 4 { LowBit4(v, z); }
    else if z >> 3 == 5 { LowBit5(v, z); }
    else if z >> 3 == 6 { LowBit6(v, z); }
    else { LowBit7(v, z); }
  }

  lemma EncodeAt(v: Lane, k: nat)
    requires k < 8
    ensures Encode(v)[k] == LaneByte(v, k)
  {
    hide LaneByte;
  }

  /** A lane is written in the same order. */
  lemma EncodeBit(v: Lane, z: bv6)
    ensures |Bits(ByteBits, Encode(v))| == 64 && (z as nat) < 64 && Bits(ByteBits, Encode(v))[z as nat] == Fips202.Bit(v, z)
  {
    hide ByteBits, LaneByte, Encode, Bits, Fips202.Bit;
    SplitZ(z);
    LaneByteBit(v, z);
    EncodeAt(v, (z >> 3) as nat);
    ByteBitAt(Encode(v)[(z >> 3) as nat], z & 7);
    BitsAt(ByteBits, Encode(v), (z >> 3) as nat, (z & 7) as nat);
  }

  lemma FedLane(s: State, b: seq<Octet>, x: nat, y: nat)
    requires x < 5 && y < 5
    ensures Fips202.LaneAt(XorIn(s, b), x, y) ==
            if 5 * y + x < 18 then Fed(Fips202.LaneAt(s, x, y), b, 5 * y + x) else Fips202.LaneAt(s, x, y)
  {
    hide Fed;
  }

  lemma FedBit(l: Lane, b: seq<Octet>, i: nat, z: bv6)
    requires |b| % 8 == 0
    ensures |Bits(ByteBits, b)| == 8 * |b| && (z as nat) < 64
    ensures Fips202.Bit(Fed(l, b, i), z) ==
            (Fips202.Bit(l, z) != (64 * i + z as nat < |Bits(ByteBits, b)| && Bits(ByteBits, b)[64 * i + z as nat]))
  {
    hide Add, Decode, Bits, ByteBits, Fips202.Bit;
    SplitZ(z);
    BitsSize(ByteBits, b);
    if 8 * i + 8 <= |b| {
      DecodeBit(b, i, z);
      Fips202.AddBit(l, Decode(b, i), z);
    }
  }

  lemma AtBlock(a: Fips202.Array, block: seq<bool>, x: nat, y: nat, z: bv6)
    ensures Fips202.At(Fips202.XorBlock(a, block), x, y, z) ==
            (Fips202.At(a, x, y, z) != (Fips202.Index(x, y, z) < |block| && block[Fips202.Index(x, y, z)]))
  {}

  lemma BlockHolds(s: State, a: Fips202.Array, b: seq<Octet>)
    requires Fips202.Holds(s, a) && |b| % 8 == 0 && |b| <= 144
    ensures Fips202.Holds(XorIn(s, b), Fips202.XorBlock(a, Bits(ByteBits, b)))
  {
    hide Fips202.Holds, Fips202.At, Fips202.LaneAt, Fips202.Bit, XorIn, Fed, Bits, ByteBits;
    forall x: nat, y: nat, z: bv6 | x < 5 && y < 5
      ensures Fips202.At(Fips202.XorBlock(a, Bits(ByteBits, b)), x, y, z) == Fips202.BitOf(XorIn(s, b), x, y, z)
    {
      AtBlock(a, Bits(ByteBits, b), x, y, z);
      FedLane(s, b, x, y);
      FedBit(Fips202.LaneAt(s, x, y), b, 5 * y + x, z);
      Fips202.HoldsBit(s, a, x, y, z);
    }
    Fips202.HoldsIf(XorIn(s, b), Fips202.XorBlock(a, Bits(ByteBits, b)));
  }

  lemma AbsorbHolds(s: State, a: Fips202.Array, b: seq<Octet>)
    requires Fips202.Holds(s, a) && |b| % 8 == 0 && |b| <= 144
    ensures Fips202.Holds(Absorb(s, b), Fips202.RoundsOf(Fips202.XorBlock(a, Bits(ByteBits, b)), 24))
  {
    hide Fips202.Holds, Fips202.RoundsOf, PlainRounds, XorIn, Bits;
    BlockHolds(s, a, b);
    Fips202.RoundsHold(XorIn(s, b), Fips202.XorBlock(a, Bits(ByteBits, b)), 24);
  }

  lemma ZeroHolds()
    ensures Fips202.Holds(Zero(), Fips202.Blank)
  {
    forall x: nat, y: nat, z: bv6 | x < 5 && y < 5 ensures Fips202.At(Fips202.Blank, x, y, z) == Fips202.BitOf(Zero(), x, y, z)
    {
      NoBit(z);
    }
  }

  lemma NoBit(z: bv6)
    ensures !Fips202.Bit(Lane(0), z)
  {}

  /** Absorbing a padded message block by block, on lanes and on bits. */
  lemma {:induction false} RunHolds(lim: nat, p: seq<Octet>, k: nat)
    requires 0 < lim <= 144 && lim % 8 == 0 && |p| == lim * k
    ensures Rest(lim, p) == [] && Fips202.Holds(Run(Absorb, lim, Zero(), p), Fips202.Absorbed(Bits(ByteBits, p), 8 * lim))
    decreases k
  {
    hide *;
    if k == 0 {
      NothingAbsorbed(lim, p);
      ZeroHolds();
    } else {
      var n := |p| - lim;
      assert n == lim * (k - 1);
      RunHolds(lim, p[..n], k - 1);
      assert p == p[..n] + p[n..] && [] + p[n..] == p[n..];
      Fill(Absorb, lim, Zero(), p[..n], p[n..]);
      AbsorbHolds(Run(Absorb, lim, Zero(), p[..n]), Fips202.Absorbed(Bits(ByteBits, p[..n]), 8 * lim), p[n..]);
      NextAbsorbed(lim, p, n);
    }
  }

  lemma NothingAbsorbed(lim: nat, p: seq<Octet>)
    requires lim > 0 && |p| == 0
    ensures Fips202.Absorbed(Bits(ByteBits, p), 8 * lim) == Fips202.Blank && Run(Absorb, lim, Zero(), p) == Zero() && Rest(lim, p) == []
  {}

  lemma NextAbsorbed(lim: nat, p: seq<Octet>, n: nat)
    requires lim > 0 && n == |p| - lim
    ensures Fips202.Absorbed(Bits(ByteBits, p), 8 * lim) ==
            Fips202.RoundsOf(Fips202.XorBlock(Fips202.Absorbed(Bits(ByteBits, p[..n]), 8 * lim), Bits(ByteBits, p[n..])), 24)
  {
    hide Fips202.RoundsOf, Bits, ByteBits;
    BitsSize(ByteBits, p);
    BitsSlice(ByteBits, p, 0, n);
    BitsSlice(ByteBits, p, n, |p|);
    var bits := Bits(ByteBits, p);
    assert p[0..n] == p[..n] && p[n..|p|] == p[n..];
    assert bits[..8 * n] == bits[0..8 * n] && bits[8 * n..] == bits[8 * n..8 * |p|];
  }

  lemma WideLane(s: State, i: nat)
    requires i < 8
    ensures Wide(s, i) == Fips202.LaneAt(s, i % 5, i / 5)
  {}

  lemma {:induction false} OutputBit(s: State, n: nat, i: nat, z: bv6)
    requires i < n <= 8
    ensures |Bits(ByteBits, Output(s, n))| == 64 * n && (z as nat) < 64
    ensures Bits(ByteBits, Output(s, n))[64 * i + z as nat] == Fips202.Bit(Wide(s, i), z)
  {
    hide Bits, ByteBits, Encode, Wide, Fips202.Bit;
    BitsSize(ByteBits, Output(s, n));
    BitsSize(ByteBits, Output(s, n - 1));
    BitsAppend(ByteBits, Output(s, n - 1), Encode(Wide(s, n - 1)));
    EncodeBit(Wide(s, i), z);
    if i < n - 1 { OutputBit(s, n - 1, i, z); }
  }

  /** The bits of the digest are the first bits of the state. */
  lemma DigestBit(s: State, a: Fips202.Array, d: nat, x: nat, y: nat, z: bv6)
    requires Fips202.Holds(s, a) && d <= 64 && x < 5 && y < 5 && Fips202.Index(x, y, z) < 8 * d
    ensures var out := Output(s, (d + 7) / 8)[..d];
            |Bits(ByteBits, out)| == 8 * d && Bits(ByteBits, out)[Fips202.Index(x, y, z)] == Fips202.At(a, x, y, z)
  {
    hide Fips202.Holds, Fips202.At, Fips202.LaneAt, Fips202.Bit, Bits, ByteBits, Output, Wide;
    var i := 5 * y + x;
    var all := Output(s, (d + 7) / 8);
    BitsSlice(ByteBits, all, 0, d);
    assert all[0..d] == all[..d];
    OutputBit(s, (d + 7) / 8, i, z);
    WideLane(s, i);
    assert i % 5 == x && i / 5 == y;
    Fips202.HoldsBit(s, a, x, y, z);
  }

  /** Bit j of byte k of the digest is bit z == 8 (k mod 8) + j of lane (x, y) with x + 5 y == k / 8. */
  lemma DigestByte(s: State, a: Fips202.Array, d: nat, k: nat, j: nat, x: nat, y: nat, z: bv6)
    requires Fips202.Holds(s, a) && k < d <= 64 && j < 8 && x < 5 && x + 5 * y == k / 8 && z as nat == 8 * (k % 8) + j
    ensures var out := Output(s, (d + 7) / 8)[..d];
            |out| == d && ByteBits(out[k])[j] == Fips202.At(a, x, y, z)
  {
    hide *;
    var out := Output(s, (d + 7) / 8)[..d];
    BytePlace(k, j, x, y, z);
    DigestBit(s, a, d, x, y, z);
    BitsAt(ByteBits, out, k, j);
  }

  lemma BytePlace(k: nat, j: nat, x: nat, y: nat, z: bv6)
    requires k < 64 && j < 8 && x < 5 && x + 5 * y == k / 8 && z as nat == 8 * (k % 8) + j
    ensures y < 5 && Fips202.Index(x, y, z) == 8 * k + j
  {
    assert k == 8 * (k / 8) + k % 8;
  }

  /** Main result: the plain hash of a message with some extra bits is the digest that FIPS 202 defines. */
  lemma HashIsFips(lim: nat, msg: seq<Octet>, ub: Octet, n: nat, d: nat)
    requires 0 < lim <= 144 && lim % 8 == 0 && n < 8 && d <= 64 && d <= lim
    ensures var padded := msg + PadBytes(|Rest(lim, msg)|, lim, ub, n);
            Fips202.IsDigest(8 * lim, Bits(ByteBits, msg) + ExtraBits(ub, n), Bits(ByteBits, PlainHash(lim, padded, d)))
  {
    hide *;
    var padded := msg + PadBytes(|Rest(lim, msg)|, lim, ub, n);
    var z := PadZeros(|Rest(lim, msg)|, lim, n);
    PaddingIsPad101(msg, lim, ub, n);
    PaddedForm(Bits(ByteBits, msg) + ExtraBits(ub, n), z);
    HashSqueezed(lim, padded, d);
    DigestIs(8 * lim, Bits(ByteBits, msg) + ExtraBits(ub, n), z, Bits(ByteBits, PlainHash(lim, padded, d)));
  }

  lemma PaddedForm(m: seq<bool>, k: nat)
    ensures Fips202.Padded(m, k) == m + [true] + Zeros(k) + [true]
  {}

  lemma DigestIs(r: nat, m: seq<bool>, k: nat, d: seq<bool>)
    requires k < r && Fips202.Squeezed(r, Fips202.Padded(m, k), d)
    ensures Fips202.IsDigest(r, m, d)
  {
    hide Fips202.Squeezed, Fips202.Padded;
  }

  lemma {:induction false} WholeBlocks(lim: nat, p: seq<Octet>)
    requires lim > 0 && Rest(lim, p) == []
    ensures |p| % lim == 0 && lim * (|p| / lim) == |p|
    decreases |p|
  {
    if |p| >= lim {
      WholeBlocks(lim, p[lim..]);
      var q := |p[lim..]| / lim;
      hide Rest;
      assert lim * (q + 1) == lim * q + lim;
      Numerals.DivUnique(|p|, lim, q + 1, 0);
    }
  }

  lemma HashSqueezed(lim: nat, p: seq<Octet>, d: nat)
    requires 0 < lim <= 144 && lim % 8 == 0 && d <= 64 && d <= lim && Rest(lim, p) == []
    ensures Fips202.Squeezed(8 * lim, Bits(ByteBits, p), Bits(ByteBits, PlainHash(lim, p, d)))
  {
    hide Bits, ByteBits, Run, Rest, Absorb, Output, Fips202.Absorbed, Fips202.Holds, Fips202.At;
    WholeBlocks(lim, p);
    RunHolds(lim, p, |p| / lim);
    BlockCount(lim, |p| / lim, |p|);
    BitsSize(ByteBits, p);
    BitsSize(ByteBits, PlainHash(lim, p, d));
    var s, a := Run(Absorb, lim, Zero(), p), Fips202.Absorbed(Bits(ByteBits, p), 8 * lim);
    forall x: nat, y: nat, z: bv6 | x < 5 && y < 5 && Fips202.Index(x, y, z) < 8 * d
      ensures Bits(ByteBits, PlainHash(lim, p, d))[Fips202.Index(x, y, z)] == Fips202.At(a, x, y, z)
    {
      DigestBit(s, a, d, x, y, z);
    }
  }

  lemma BlockCount(lim: nat, k: nat, size: nat)
    requires lim > 0 && size == lim * k
    ensures 8 * size % (8 * lim) == 0
  {
    assert 8 * size == k * (8 * lim);
    Numerals.DivUnique(8 * size, 8 * lim, k, 0);
  }

  class Context {
    const lim: nat
    const buf: array<Octet>
    var wide: State
    var ptr: nat
    ghost var msg: seq<Octet>

    /** The state is the plain sponge state of the message so far, six lanes complemented, and the buffer
        holds the bytes after its last complete block. */
    ghost predicate Valid()
      reads this, buf
    {
      && (lim == 144 || lim == 136 || lim == 104 || lim == 72) && buf.Length == 144
      && ptr < lim && buf[..ptr] == Rest(lim, msg)
      && wide == Between(Run(Absorb, lim, Zero(), msg))
    }

    constructor (lim: nat)
      requires lim == 144 || lim == 136 || lim == 104 || lim == 72
      ensures Valid() && msg == [] && this.lim == lim && fresh(buf)
    {
      this.lim := lim;
      buf := new Octet[144](_ => 0);
      wide, ptr, msg := Zero(), 0, [];
      new;
      Init();
    }

    method Init()
      requires (lim == 144 || lim == 136 || lim == 104 || lim == 72) && buf.Length == 144
      modifies this
      ensures Valid() && msg == []
    {
      hide PlainRounds, XorIn;
      wide := Zero();
      var ones := Lane(0xFFFF_FFFF_FFFF_FFFF);
      wide := wide.(a10 := ones, a20 := ones, a31 := ones, a22 := ones, a23 := ones, a04 := ones);
      ptr := 0;
      msg := [];
      assert wide == Between(Zero());
    }

    lemma Bounds()
      requires Valid()
      ensures ptr < lim && ptr == |Rest(lim, msg)| && buf.Length == 144 && (lim == 144 || lim == 136 || lim == 104 || lim == 72)
    {
      assert |buf[..ptr]| == ptr;
    }

    /** Any split of the input into calls is the same: each call appends to the message. */
    method Core(data: seq<Octet>)
      requires Valid()
      modifies this, buf
      ensures Valid() && msg == old(msg) + data
    {
      hide Context.Valid, Rest;
      Bounds();
      if |data| < lim - ptr {
        Keep(data);
        return;
      }
      var k: nat := 0;
      while k < |data|
        invariant k <= |data| && Valid() && msg == old(msg) + data[..k]
      {
        Bounds();
        var clen := lim - ptr;
        if clen > |data| - k { clen := |data| - k; }
        Feed(data[k..k + clen]);
        assert data[..k] + data[k..k + clen] == data[..k + clen];
        k := k + clen;
      }
      assert data[..k] == data;
    }

    /** Input that does not complete a block. */
    method Keep(data: seq<Octet>)
      requires Valid() && |data| < lim - ptr
      modifies this, buf
      ensures Valid() && msg == old(msg) + data
    {
      hide Between, Absorb, Run, Rest;
      Fill(Absorb, lim, Zero(), msg, data);
      CopyInto(buf, ptr, data);
      ptr := ptr + |data|;
      msg := msg + data;
    }

    /** One step of the input loop. */
    method Feed(chunk: seq<Octet>)
      requires Valid() && 0 < |chunk| <= lim - ptr
      modifies this, buf
      ensures Valid() && msg == old(msg) + chunk
    {
      hide Between, Run, Rest;
      Fill(Absorb, lim, Zero(), msg, chunk);
      CopyInto(buf, ptr, chunk);
      ptr := ptr + |chunk|;
      if ptr == lim {
        ghost var s := Run(Absorb, lim, Zero(), msg);
        var block := buf[..lim];
        XorInComplement(s, block);
        wide := XorIn(wide, block);
        BetweenTwice(XorIn(s, block));
        wide := Permute(wide);
        ptr := 0;
      }
      msg := msg + chunk;
    }

    method Close(ub: Octet, n: nat) returns (digest: seq<Octet>)
      requires Valid() && n < 8
      modifies this, buf
      ensures Valid() && msg == []
      ensures var d := (200 - lim) / 2;
              |digest| == d && digest == PlainHash(lim, old(msg) + PadBytes(|Rest(lim, old(msg))|, lim, ub, n), d)
      ensures Fips202.IsDigest(8 * lim, Bits(ByteBits, old(msg)) + ExtraBits(ub, n), Bits(ByteBits, digest))
    {
      hide Context.Valid, PadBytes, Rest, Run, Output, Bits, ByteBits, ExtraBits, Fips202.IsDigest;
      Bounds();
      HashIsFips(lim, msg, ub, n, (200 - lim) / 2);
      var tmp := MakePad(ptr, lim, ub, n);
      Core(tmp);
      Uncomplement();
      digest := Squeeze(wide, (200 - lim) / 2);
      Init();
    }

    /** Undo the complement of the six lanes. */
    method Uncomplement()
      requires Valid()
      modifies this`wide
      ensures wide == Run(Absorb, lim, Zero(), msg)
    {
      BetweenTwice(Run(Absorb, lim, Zero(), msg));
      wide := wide.(a10 := Not(wide.a10), a20 := Not(wide.a20), a31 := Not(wide.a31), a22 := Not(wide.a22), a23 := Not(wide.a23), a04 := Not(wide.a04));
    }
  }

  /** Filling the last block, or the last byte of it and one block more. */
  method MakePad(ptr: nat, lim: nat, ub: Octet, n: nat) returns (tmp: seq<Octet>)
    requires ptr < lim && n < 8
    ensures tmp == PadBytes(ptr, lim, ub, n)
  {
    hide EndByte, ZeroBytes;
    var eb := EndByte(ub, n);
    if ptr == lim - 1 {
      if n == 7 {
        tmp := [eb] + ZeroBytes(lim - 1) + [0x80];
      } else {
        tmp := [eb | 0x80];
      }
    } else {
      tmp := [eb] + ZeroBytes(lim - ptr - 2) + [0x80];
    }
  }

  /** The output loop: whole lanes, then cut to length. */
  method Squeeze(s: State, d: nat) returns (digest: seq<Octet>)
    requires d <= 64
    ensures digest == Output(s, (d + 7) / 8)[..d]
  {
    hide Encode, Wide;
    var out: seq<Octet> := [];
    var j: nat := 0;
    while 8 * j < d
      invariant j <= (d + 7) / 8 && out == Output(s, j)
    {
      out := out + Encode(Wide(s, j));
      j := j + 1;
    }
    digest := out[..d];
  }
}
