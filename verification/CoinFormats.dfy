/** The bytes of stored records: the documented layout of the header and the documented examples. */
module CoinFormats {
  import opened Basics
  import opened Numerals
  import opened CoinRecords
  import opened Amounts
  import opened CoinCodec

  // ---- numbers ----

  /** The digits of an encoding to the base 128, the last one as it is and the others one more. */
  function VarDigits(a: seq<Byte>, last: nat): (d: seq<nat>)
    ensures |d| == |a|
  {
    seq(|a|, i requires 0 <= i < |a| => a[i] % 128 + (if i == last then 0 else 1))
  }

  lemma DigitsSnoc(a: seq<Byte>, b: Byte, last: nat)
    requires last >= |a|
    ensures VarDigits(a + [b], last) == VarDigits(a, |a|) + [b % 128 + (if last == |a| then 0 else 1)]
  {}

  lemma {:induction false} VarBytesValue(n: nat)
    ensures var a := VarBytes(n, 128); Val(128, VarDigits(a, |a|)) == n + 1 && forall i | 0 <= i < |a| :: a[i] >= 128
    decreases n
  {
    hide Val, VarDigits;
    var b: Byte := n % 128 + 128;
    if n <= 0x7F {
      DigitsSnoc([], b, 1);
      ValSnoc(128, VarDigits([], 0), n + 1);
      NoDigits();
      assert [] + [b] == [b] && VarDigits([], 0) + [n + 1] == [n + 1];
    } else {
      var a := VarBytes(n / 128 - 1, 128);
      VarBytesValue(n / 128 - 1);
      DigitsSnoc(a, b, |a| + 1);
      ValSnoc(128, VarDigits(a, |a|), n % 128 + 1);
    }
  }

  lemma NoDigits()
    ensures VarDigits([], 0) == [] && Val(128, []) == 0
  {}

  /** Main result: the documented meaning of an encoding, as a sum of powers of 128; all bytes but the last have the
      high bit set. */
  lemma VarIntValue(n: nat)
    ensures var a := VarInt(n);
            && Val(128, VarDigits(a, |a| - 1)) == n
            && forall i | 0 <= i < |a| :: a[i] >= 128 <==> i < |a| - 1
  {
    hide Val, VarDigits;
    if n <= 0x7F {
      DigitsSnoc([], n, 0);
      ValSnoc(128, VarDigits([], 0), n);
      NoDigits();
      assert [] + [n] == [n] && VarDigits([], 0) + [n] == [n];
    } else {
      var a := VarBytes(n / 128 - 1, 128);
      VarBytesValue(n / 128 - 1);
      DigitsSnoc(a, n % 128, |a|);
      ValSnoc(128, VarDigits(a, |a|), n % 128);
    }
  }

  /** The examples beside the writer of variable-length integers; those given there for 16511 and 65535 are not
      what the code writes, the bytes here are. */
  lemma KnownVarInts()
    ensures VarInt(0) == [0x00] && VarInt(1) == [0x01] && VarInt(127) == [0x7F]
    ensures VarInt(128) == [0x80, 0x00] && VarInt(255) == [0x80, 0x7F] && VarInt(256) == [0x81, 0x00]
    ensures VarInt(16383) == [0xFE, 0x7F] && VarInt(16384) == [0xFF, 0x00] && VarInt(16511) == [0xFF, 0x7F]
  {}

  lemma KnownLongVarInts()
    ensures VarInt(65535) == [0x82, 0xFE, 0x7F] && VarInt(0x1_0000_0000) == [0x8E, 0xFE, 0xFE, 0xFF, 0x00]
  {
    assert VarBytes(2046, 128) == [0x8E, 0xFE];
    assert VarBytes(33554431, 128) == [0x8E, 0xFE, 0xFE, 0xFF];
  }

  /** An amount is coded by what is left without at most nine zeros at its end, and how many they are. */
  lemma CompressOf(m: nat, e: nat)
    requires m > 0 && e <= 9 && (e < 9 ==> m % 10 != 0)
    ensures Compress(m * Pow(10, e)) == if e < 9 then 10 * (9 * (m / 10) + m % 10 - 1) + e + 1 else 10 * m
  {
    hide Pow, DropZeros;
    DropZerosOf(m, e, 9);
  }

  lemma NothingCosts()
    ensures Compress(0) == 0
  {}

  lemma PowersOfTen()
    ensures Pow(10, 0) == 1 && Pow(10, 6) == 1_000_000 && Pow(10, 9) == 1_000_000_000
  {
    assert Pow(10, 3) == 1000;
  }

  /** The amounts of the unit test, and those of the two documented records. */
  lemma KnownAmounts()
    ensures Compress(0) == 0 && Compress(1) == 1 && Compress(1_000_000) == 7 && Compress(100_000_000) == 9
    ensures Compress(5_000_000_000) == 0x32 && Compress(2_100_000_000_000_000) == 0x1406f40
    ensures Compress(60_000_000_000) == 600 && Compress(234_925_952) == 2114333561 && Compress(110_397) == 993571
  {
    hide *;
    PowersOfTen();
    assert Compress(0) == 0 by { NothingCosts(); }
    PowSucc(10, 6);
    PowSucc(10, 7);
    CompressOf(1, 0);
    CompressOf(1, 6);
    CompressOf(1, 8);
    CompressOf(5, 9);
    CompressOf(2_100_000, 9);
    CompressOf(60, 9);
    CompressOf(234_925_952, 0);
    CompressOf(110_397, 0);
  }

  // ---- the header ----

  predicate BitAt(n: nat, j: nat) { n / Pow2(j) % 2 == 1 }

  /** The bitmask of the outputs after the second, lowest bit first, ending with the last byte used. */
  ghost predicate IsMask(mask: seq<Byte>, vout: seq<TxOut>)
  {
    && (mask != [] ==> mask[|mask| - 1] != 0)
    && (forall b, j | 0 <= b < |mask| && 0 <= j < 8 ::
          BitAt(mask[b], j) <==> 2 + 8 * b + j < |vout| && !vout[2 + 8 * b + j].IsNull())
    && (forall i | 2 + 8 * |mask| <= i < |vout| :: vout[i].IsNull())
  }

  function Used(mask: seq<Byte>): set<nat> { set b | 0 <= b < |mask| && mask[b] != 0 }

  /** Bit 1 for a coinbase, bits 2 and 4 for the first two outputs, and above them the number of mask bytes that are
      not zero, less one if neither of these outputs is unspent. */
  ghost predicate IsCode(code: nat, c: Coins, mask: seq<Byte>)
  {
    var first, second := |c.vout| > 0 && !c.vout[0].IsNull(), |c.vout| > 1 && !c.vout[1].IsNull();
    && (BitAt(code, 0) <==> c.coinBase) && (BitAt(code, 1) <==> first) && (BitAt(code, 2) <==> second)
    && |Used(mask)| == code / 8 + (if first || second then 0 else 1)
  }

  lemma {:induction false} BitListAt(c: nat, n: nat, i: nat)
    requires i < n
    ensures BitList(c, n)[i] <==> BitAt(c, i)
    decreases n
  {
    if i > 0 {
      BitListAt(c / 2, n - 1, i - 1);
      Halved(c, Pow2(i - 1));
    }
  }

  lemma Halved(c: nat, p: nat)
    requires p > 0
    ensures c / 2 / p == c / (2 * p)
  {
    var q := c / 2 / p;
    var r := c / 2 % p;
    assert c / 2 == q * p + r;
    assert c == q * (2 * p) + (2 * r + c % 2);
    DivUnique(c, 2 * p, q, 2 * r + c % 2);
  }

  lemma MaskByteBits(vout: seq<TxOut>, b: nat, j: nat)
    requires j < 8
    ensures BitAt(MaskByte(vout, b), j) <==> 2 + 8 * b + j < |vout| && !vout[2 + 8 * b + j].IsNull()
  {
    ByteBitsAre(vout, b);
    BitListAt(MaskByte(vout, b), 8, j);
    hide Pack, Pow2, BitList;
    assert Bits(MaskByte(vout, b))[j] == (Bit(vout, 2 + 8 * b + j) == 1);
  }

  lemma {:induction false} MaskAt(vout: seq<TxOut>, b: nat, n: nat)
    requires b <= n
    ensures |Mask(vout, b, n)| == n - b && forall i | 0 <= i < n - b :: Mask(vout, b, n)[i] == MaskByte(vout, b + i)
    decreases n - b
  {
    hide MaskByte;
    if b < n { MaskAt(vout, b + 1, n); }
  }

  lemma {:induction false} LastUsedIs(vout: seq<TxOut>, n: nat)
    ensures var r := LastUsed(vout, n);
            r <= n && (r > 0 ==> MaskByte(vout, r - 1) != 0) && forall b: nat | r <= b < n :: MaskByte(vout, b) == 0
  {
    hide MaskByte;
    if n > 0 && MaskByte(vout, n - 1) == 0 { LastUsedIs(vout, n - 1); }
  }

  function UsedBytes(vout: seq<TxOut>, b: nat, n: nat): set<nat> { set i: nat | b <= i < n && MaskByte(vout, i) != 0 }

  lemma {:induction false} NonZeroCounts(vout: seq<TxOut>, b: nat, n: nat)
    ensures NonZero(vout, b, n) == |UsedBytes(vout, b, n)|
    decreases n - b
  {
    hide MaskByte;
    if b >= n {
      assert UsedBytes(vout, b, n) == {};
    } else {
      NonZeroCounts(vout, b + 1, n);
      var rest := UsedBytes(vout, b + 1, n);
      assert UsedBytes(vout, b, n) == if MaskByte(vout, b) != 0 then {b} + rest else rest;
    }
  }

  lemma Clear(j: nat)
    ensures !BitAt(0, j)
  {}

  /** Bytes with the availabilities as their bits, all those that are not zero and no zero at the end, are the
      bitmask. */
  lemma MaskIntro(vout: seq<TxOut>, mask: seq<Byte>, n: nat)
    requires |mask| <= n == MaskBytes(|vout|) && (mask != [] ==> mask[|mask| - 1] != 0)
    requires forall b | 0 <= b < n :: MaskByte(vout, b) == if b < |mask| then mask[b] else 0
    ensures IsMask(mask, vout) && Used(mask) == UsedBytes(vout, 0, n)
  {
    hide MaskByte, BitAt;
    forall b, j | 0 <= b < |mask| && 0 <= j < 8
      ensures BitAt(mask[b], j) <==> 2 + 8 * b + j < |vout| && !vout[2 + 8 * b + j].IsNull()
    {
      MaskByteBits(vout, b, j);
    }
    forall i | 2 + 8 * |mask| <= i < |vout| ensures vout[i].IsNull()
    {
      var b, j := (i - 2) / 8, (i - 2) % 8;
      MaskByteBits(vout, b, j);
      Clear(j);
    }
  }

  /** What the writer writes is the bitmask. */
  lemma MaskIs(vout: seq<TxOut>)
    ensures var n := MaskBytes(|vout|);
            var mask := Mask(vout, 0, LastUsed(vout, n));
            IsMask(mask, vout) && Used(mask) == UsedBytes(vout, 0, n)
  {
    hide *;
    var n := MaskBytes(|vout|);
    LastUsedIs(vout, n);
    MaskAt(vout, 0, LastUsed(vout, n));
    MaskIntro(vout, Mask(vout, 0, LastUsed(vout, n)), n);
  }

  lemma CodeBits(q: int, a: bool, b: bool, c: bool)
    requires 8 * q + (if a then 1 else 0) + (if b then 2 else 0) + (if c then 4 else 0) >= 0
    ensures var n := 8 * q + (if a then 1 else 0) + (if b then 2 else 0) + (if c then 4 else 0);
            (BitAt(n, 0) <==> a) && (BitAt(n, 1) <==> b) && (BitAt(n, 2) <==> c) && n / 8 == q
  {
    assert Pow2(0) == 1 && Pow2(1) == 2 && Pow2(2) == 4;
    hide Pow2;
    var x, y, z := if a then 1 else 0, if b then 2 else 0, if c then 4 else 0;
    var n := 8 * q + x + y + z;
    assert q >= 0;
    DivUnique(n, 1, n, 0);
    DivUnique(n, 2, 4 * q + y / 2 + z / 2, x);
    DivUnique(n, 4, 2 * q + z / 4, x + y);
    DivUnique(n, 8, q, x + y + z);
  }

  /** Main result: the layout of a stored record. Together with the mask, the header code tells which outputs follow. */
  lemma RecordLayout(k: ScriptCodec, c: Coins) returns (code: nat, mask: seq<Byte>)
    requires Writable(c)
    ensures IsMask(mask, c.vout) && IsCode(code, c, mask)
    ensures Ser(k, c) == VarInt(Wrap(c.version)) + VarInt(code) + mask + Outs(k, c.vout) + VarInt(Wrap(c.height))
  {
    hide *;
    CodeNatural(c);
    code := Code(c);
    var n := MaskBytes(|c.vout|);
    mask := Mask(c.vout, 0, LastUsed(c.vout, n));
    MaskIs(c.vout);
    NonZeroCounts(c.vout, 0, n);
    SerParts(k, c);
    CodeParts(c, mask);
  }

  lemma SerParts(k: ScriptCodec, c: Coins)
    requires Writable(c)
    ensures Code(c) >= 0
    ensures var mask := Mask(c.vout, 0, LastUsed(c.vout, MaskBytes(|c.vout|)));
            Ser(k, c) == VarInt(Wrap(c.version)) + VarInt(Code(c)) + mask + Outs(k, c.vout) + VarInt(Wrap(c.height))
  {
    CodeNatural(c);
    hide Code, Mask, VarInt, Outs, LastUsed, MaskBytes, Wrap;
  }

  lemma CodeParts(c: Coins, mask: seq<Byte>)
    requires Code(c) >= 0 && NonZero(c.vout, 0, MaskBytes(|c.vout|)) == |Used(mask)|
    ensures IsCode(Code(c), c, mask)
  {
    hide NonZero, Used, BitAt, MaskBytes;
    CodeBits(|Used(mask)| - (if First(c) || Second(c) then 0 else 1), c.coinBase, First(c), Second(c));
  }

  // ---- the documented records ----

  lemma ExampleNumbers()
    ensures VarInt(1) == [0x01] && VarInt(4) == [0x04] && VarInt(9) == [0x09]
    ensures VarInt(600) == [0x83, 0x58] && VarInt(203998) == [0x8b, 0xb8, 0x5e] && VarInt(120891) == [0x86, 0xaf, 0x3b]
  {}

  /** The first documented record: only output 1 of a transaction at height 203998 is unspent. */
  lemma FirstExample(k: ScriptCodec, script: Script)
    ensures var c := Coins(false, [NULL_OUT, TxOut(60_000_000_000, script)], 203998, 1);
            Writable(c) && Ser(k, c) == [0x01, 0x04, 0x83, 0x58] + k.enc(script) + [0x8b, 0xb8, 0x5e]
  {
    hide *;
    var o := TxOut(60_000_000_000, script);
    var c := Coins(false, [NULL_OUT, o], 203998, 1);
    OnlySecond(k, o);
    SerParts(k, c);
    KnownAmounts();
    ExampleNumbers();
    assert [0x01] + [0x04] + [] + ([0x83, 0x58] + k.enc(script)) + [0x8b, 0xb8, 0x5e]
        == [0x01, 0x04, 0x83, 0x58] + k.enc(script) + [0x8b, 0xb8, 0x5e];
  }

  lemma OnlySecond(k: ScriptCodec, o: TxOut)
    requires o.value >= 0
    ensures var c := Coins(false, [NULL_OUT, o], 203998, 1);
            && Writable(c) && Code(c) == 4 && Outs(k, c.vout) == VarInt(Compress(o.value)) + k.enc(o.script)
            && Mask(c.vout, 0, LastUsed(c.vout, MaskBytes(|c.vout|))) == [] && Wrap(c.version) == 1 && Wrap(c.height) == 203998
  {
    hide VarInt, Compress;
    var c := Coins(false, [NULL_OUT, o], 203998, 1);
    assert c.vout[1] == o && c.vout[1..] == [o] && [o][1..] == [];
    assert Outs(k, []) == [] && Outs(k, [o]) == EncOut(k, o) + [];
  }
}
