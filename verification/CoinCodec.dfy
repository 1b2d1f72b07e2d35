/** The stored form of an unspent-output record: version, a header code, a bitmask of the outputs after the
    second, the unspent outputs and the height. */
module CoinCodec {
  import opened Basics
  import opened CoinRecords
  import opened Amounts
  import opened Numerals
  import UtxoUndo

  /** Script compression, kept abstract. */
  datatype ScriptCodec = ScriptCodec(enc: Script -> seq<Byte>, dec: seq<Byte> -> Option<(Script, seq<Byte>)>)

  ghost predicate Faithful(k: ScriptCodec) { forall x, rest :: k.dec(k.enc(x) + rest) == Some((x, rest)) }

  // ---- one output ----

  function EncOut(k: ScriptCodec, o: TxOut): seq<Byte>
    requires o.value >= 0
  {
    VarInt(Compress(o.value)) + k.enc(o.script)
  }

  function ReadOut(k: ScriptCodec, s: seq<Byte>): Option<(TxOut, seq<Byte>)>
  {
    match ReadVar(s, 0)
    case None => None
    case Some((x, t)) =>
      match k.dec(t)
      case None => None
      case Some((script, u)) => Some((TxOut(Decompress(x), script), u))
  }

  lemma OutRoundTrip(k: ScriptCodec, o: TxOut, rest: seq<Byte>)
    requires Faithful(k) && o.value >= 0
    ensures ReadOut(k, EncOut(k, o) + rest) == Some((o, rest))
  {
    hide ReadVar, VarInt, Compress, Decompress;
    assert EncOut(k, o) + rest == VarInt(Compress(o.value)) + (k.enc(o.script) + rest);
    VarRoundTrip(Compress(o.value), k.enc(o.script) + rest);
    AmountRoundTrip(o.value);
  }

  // ---- the unspent outputs of a list ----

  ghost predicate Priced(vout: seq<TxOut>) { forall i | 0 <= i < |vout| :: vout[i].IsNull() || vout[i].value >= 0 }

  function Outs(k: ScriptCodec, vout: seq<TxOut>): seq<Byte>
    requires Priced(vout)
  {
    if vout == [] then []
    else (if vout[0].IsNull() then [] else EncOut(k, vout[0])) + Outs(k, vout[1..])
  }

  function ReadOuts(k: ScriptCodec, s: seq<Byte>, avail: seq<bool>): Option<(seq<TxOut>, seq<Byte>)>
    decreases |avail|
  {
    if avail == [] then Some(([], s))
    else if !avail[0] then
      match ReadOuts(k, s, avail[1..])
      case None => None
      case Some((v, t)) => Some(([NULL_OUT] + v, t))
    else
      match ReadOut(k, s)
      case None => None
      case Some((o, u)) =>
        match ReadOuts(k, u, avail[1..])
        case None => None
        case Some((v, t)) => Some(([o] + v, t))
  }

  function Avail(vout: seq<TxOut>): (r: seq<bool>)
    ensures |r| == |vout| && forall i | 0 <= i < |vout| :: r[i] == !vout[i].IsNull()
  {
    seq(|vout|, i requires 0 <= i < |vout| => !vout[i].IsNull())
  }

  lemma ReadNull(k: ScriptCodec, s: seq<Byte>, avail: seq<bool>, v: seq<TxOut>, t: seq<Byte>)
    requires avail != [] && !avail[0] && ReadOuts(k, s, avail[1..]) == Some((v, t))
    ensures ReadOuts(k, s, avail) == Some(([NULL_OUT] + v, t))
  {
    hide ReadOut;
  }

  lemma ReadNext(k: ScriptCodec, s: seq<Byte>, avail: seq<bool>, o: TxOut, u: seq<Byte>, v: seq<TxOut>, t: seq<Byte>)
    requires avail != [] && avail[0] && ReadOut(k, s) == Some((o, u)) && ReadOuts(k, u, avail[1..]) == Some((v, t))
    ensures ReadOuts(k, s, avail) == Some(([o] + v, t))
  {
    hide ReadOut;
  }

  lemma {:induction false} OutsRoundTrip(k: ScriptCodec, vout: seq<TxOut>, rest: seq<Byte>)
    requires Faithful(k) && Priced(vout) && Blanked(vout)
    ensures ReadOuts(k, Outs(k, vout) + rest, Avail(vout)) == Some((vout, rest))
  {
    hide *;
    if vout == [] {
      NoneRead(k, vout, rest);
    } else {
      OutsParts(vout);
      var a, more := Avail(vout), Outs(k, vout[1..]) + rest;
      OutsRoundTrip(k, vout[1..], rest);
      OutsUnfold(k, vout, rest);
      if vout[0].IsNull() {
        ReadNull(k, more, a, vout[1..], rest);
      } else {
        OutRoundTrip(k, vout[0], more);
        ReadNext(k, EncOut(k, vout[0]) + more, a, vout[0], more, vout[1..], rest);
      }
    }
  }

  lemma NoneRead(k: ScriptCodec, vout: seq<TxOut>, rest: seq<Byte>)
    requires vout == []
    ensures Priced(vout) && ReadOuts(k, Outs(k, vout) + rest, Avail(vout)) == Some((vout, rest))
  {
    assert Outs(k, vout) + rest == rest;
  }

  lemma OutsParts(vout: seq<TxOut>)
    requires Priced(vout) && Blanked(vout) && vout != []
    ensures Priced(vout[1..]) && Blanked(vout[1..]) && Avail(vout)[1..] == Avail(vout[1..]) && vout == [vout[0]] + vout[1..]
    ensures Avail(vout)[0] == !vout[0].IsNull() && if vout[0].IsNull() then vout[0] == NULL_OUT else vout[0].value >= 0
  {}

  lemma OutsUnfold(k: ScriptCodec, vout: seq<TxOut>, rest: seq<Byte>)
    requires Priced(vout) && vout != []
    ensures var more := Outs(k, vout[1..]) + rest;
            Outs(k, vout) + rest == if vout[0].IsNull() then more else EncOut(k, vout[0]) + more
  {
    hide EncOut;
    if vout[0].IsNull() { assert [] + Outs(k, vout[1..]) == Outs(k, vout[1..]); }
  }

  lemma {:induction false} OutsPadded(k: ScriptCodec, vout: seq<TxOut>, n: nat)
    requires Priced(vout)
    ensures Priced(vout + Nulls(n)) && Outs(k, vout + Nulls(n)) == Outs(k, vout)
    decreases |vout|, n
  {
    hide EncOut;
    if vout != [] {
      assert (vout + Nulls(n))[1..] == vout[1..] + Nulls(n);
      OutsPadded(k, vout[1..], n);
    } else if n > 0 {
      assert vout + Nulls(n) == Nulls(n) && Nulls(n)[1..] == Nulls(n - 1) == vout + Nulls(n - 1);
      OutsPadded(k, vout, n - 1);
    } else {
      assert vout + Nulls(n) == vout;
    }
  }

  function Nulls(n: nat): seq<TxOut> { seq(n, _ => NULL_OUT) }

  // ---- the bitmask ----

  function Bit(vout: seq<TxOut>, j: nat): (b: nat)
    ensures b <= 1
  {
    if j < |vout| && !vout[j].IsNull() then 1 else 0
  }

  /** The availabilities of `n` outputs from `j` on, lowest bit first. */
  function Pack(vout: seq<TxOut>, j: nat, n: nat): (r: nat)
    ensures r < Pow(2, n)
    decreases n
  {
    if n == 0 then 0 else Bit(vout, j) + 2 * Pack(vout, j + 1, n - 1)
  }

  lemma Pow2of8()
    ensures Pow(2, 8) == 256
  {
    assert Pow(2, 4) == 16;
  }

  function MaskByte(vout: seq<TxOut>, b: nat): Byte
  {
    Pow2of8();
    Pack(vout, 2 + b * 8, 8)
  }

  function BitList(c: nat, n: nat): (r: seq<bool>)
    ensures |r| == n
  {
    if n == 0 then [] else [c % 2 == 1] + BitList(c / 2, n - 1)
  }

  function Bits(c: Byte): (r: seq<bool>)
    ensures |r| == 8
  {
    BitList(c, 8)
  }

  lemma {:induction false} Unpack(vout: seq<TxOut>, j: nat, n: nat)
    ensures forall i | 0 <= i < n :: BitList(Pack(vout, j, n), n)[i] == (Bit(vout, j + i) == 1)
    decreases n
  {
    hide Bit, Pow;
    if n > 0 {
      Unpack(vout, j + 1, n - 1);
      var c := Pack(vout, j, n);
      assert c / 2 == Pack(vout, j + 1, n - 1) && c % 2 == Bit(vout, j);
      forall i | 0 <= i < n ensures BitList(c, n)[i] == (Bit(vout, j + i) == 1)
      {
        if i > 0 { assert BitList(c, n)[i] == BitList(c / 2, n - 1)[i - 1] && j + 1 + (i - 1) == j + i; }
      }
    }
  }

  /** How many mask bytes reach past a list of so many outputs. */
  function MaskBytes(size: nat): nat { if size <= 2 then 0 else (size - 3) / 8 + 1 }

  function Mask(vout: seq<TxOut>, b: nat, n: nat): (r: seq<Byte>)
    decreases n - b
  {
    if b >= n then [] else [MaskByte(vout, b)] + Mask(vout, b + 1, n)
  }

  function NonZero(vout: seq<TxOut>, b: nat, n: nat): nat
    decreases n - b
  {
    if b >= n then 0 else (if MaskByte(vout, b) != 0 then 1 else 0) + NonZero(vout, b + 1, n)
  }

  function MaskBits(vout: seq<TxOut>, b: nat, n: nat): (r: seq<bool>)
    ensures |r| == if b >= n then 0 else 8 * (n - b)
    decreases n - b
  {
    if b >= n then [] else Bits(MaskByte(vout, b)) + MaskBits(vout, b + 1, n)
  }

  /** Reading stops with the announced number of non-zero bytes. */
  function ReadMask(s: seq<Byte>, code: nat): Option<(seq<bool>, seq<Byte>)>
    decreases |s|
  {
    if code == 0 then Some(([], s))
    else if s == [] then None
    else
      match ReadMask(s[1..], if s[0] != 0 then code - 1 else code)
      case None => None
      case Some((v, t)) => Some((Bits(s[0]) + v, t))
  }

  lemma {:induction false} LastCounts(vout: seq<TxOut>, b: nat, n: nat)
    requires b < n && MaskByte(vout, n - 1) != 0
    ensures NonZero(vout, b, n) > 0
    decreases n - b
  {
    hide MaskByte;
    if b + 1 < n { LastCounts(vout, b + 1, n); }
  }

  lemma ReadMaskStep(c: Byte, t: seq<Byte>, code: nat, v: seq<bool>, rest: seq<Byte>)
    requires code > 0 && ReadMask(t, if c != 0 then code - 1 else code) == Some((v, rest))
    ensures ReadMask([c] + t, code) == Some((Bits(c) + v, rest))
  {
    hide Bits;
    assert ([c] + t)[1..] == t;
  }

  lemma MaskUnfolds(vout: seq<TxOut>, b: nat, n: nat)
    requires b < n
    ensures Mask(vout, b, n) == [MaskByte(vout, b)] + Mask(vout, b + 1, n)
    ensures NonZero(vout, b, n) == (if MaskByte(vout, b) != 0 then 1 else 0) + NonZero(vout, b + 1, n)
    ensures MaskBits(vout, b, n) == Bits(MaskByte(vout, b)) + MaskBits(vout, b + 1, n)
  {
    hide MaskByte, Bits;
  }

  lemma NoMask(vout: seq<TxOut>, n: nat, rest: seq<Byte>)
    ensures Mask(vout, n, n) == [] && NonZero(vout, n, n) == 0 && MaskBits(vout, n, n) == []
    ensures ReadMask(rest, 0) == Some(([], rest))
  {}

  /** With a non-zero last byte, the reader takes exactly the mask. */
  lemma {:induction false} MaskRoundTrip(vout: seq<TxOut>, b: nat, n: nat, rest: seq<Byte>)
    requires b <= n && (b < n ==> MaskByte(vout, n - 1) != 0)
    ensures ReadMask(Mask(vout, b, n) + rest, NonZero(vout, b, n)) == Some((MaskBits(vout, b, n), rest))
    decreases n - b
  {
    hide MaskByte, Bits, ReadMask, Mask, NonZero, MaskBits;
    if b == n {
      NoMask(vout, n, rest);
      assert [] + rest == rest;
    } else {
      LastCounts(vout, b, n);
      MaskRoundTrip(vout, b + 1, n, rest);
      MaskUnfolds(vout, b, n);
      var c, t := MaskByte(vout, b), Mask(vout, b + 1, n) + rest;
      assert [c] + Mask(vout, b + 1, n) + rest == [c] + t;
      ReadMaskStep(c, t, NonZero(vout, b, n), MaskBits(vout, b + 1, n), rest);
    }
  }

  /** The mask bits are the availabilities after the second output. */
  lemma {:induction false} MaskBitsAre(vout: seq<TxOut>, b: nat, n: nat)
    requires b <= n
    ensures forall i | 0 <= i < 8 * (n - b) :: MaskBits(vout, b, n)[i] == (Bit(vout, 2 + 8 * b + i) == 1)
    decreases n - b
  {
    hide MaskByte, Bits, Bit, MaskBits;
    if b < n {
      MaskBitsAre(vout, b + 1, n);
      ByteBitsAre(vout, b);
      MaskUnfolds(vout, b, n);
      var first, rest := Bits(MaskByte(vout, b)), MaskBits(vout, b + 1, n);
      forall i | 0 <= i < 8 * (n - b) ensures (first + rest)[i] == (Bit(vout, 2 + 8 * b + i) == 1)
      {
        if i < 8 {
          assert (first + rest)[i] == first[i];
        } else {
          var j := i - 8;
          assert (first + rest)[i] == rest[j] && 2 + 8 * (b + 1) + j == 2 + 8 * b + i;
        }
      }
    }
  }

  lemma ByteBitsAre(vout: seq<TxOut>, b: nat)
    ensures forall i | 0 <= i < 8 :: Bits(MaskByte(vout, b))[i] == (Bit(vout, 2 + 8 * b + i) == 1)
  {
    hide Bit, Pack, BitList;
    Unpack(vout, 2 + b * 8, 8);
  }

  /** The last byte of the mask of a trimmed list is not zero. */
  lemma LastByteUsed(vout: seq<TxOut>)
    requires Trimmed(vout) && |vout| > 2
    ensures MaskByte(vout, MaskBytes(|vout|) - 1) != 0
  {
    var b := MaskBytes(|vout|) - 1;
    var i := |vout| - 1 - (2 + 8 * b);
    ByteBitsAre(vout, b);
    ZeroBits();
    hide MaskByte, Bits;
    assert Bits(MaskByte(vout, b))[i];
  }

  lemma ZeroBits()
    ensures forall i | 0 <= i < 8 :: !Bits(0)[i]
  {
    NoBits(8);
  }

  lemma NoBits(n: nat)
    ensures forall i | 0 <= i < n :: !BitList(0, n)[i]
  {
    if n > 0 { NoBits(n - 1); }
  }

  // ---- the whole record ----

  function First(c: Coins): bool { c.IsAvailable(0) }
  function Second(c: Coins): bool { c.IsAvailable(1) }

  /** The number of mask bytes written: up to the last one used. */
  function LastUsed(vout: seq<TxOut>, n: nat): (r: nat)
  {
    if n == 0 then 0 else if MaskByte(vout, n - 1) != 0 then n else LastUsed(vout, n - 1)
  }

  function Code(c: Coins): int
  {
    8 * (NonZero(c.vout, 0, MaskBytes(|c.vout|)) - (if First(c) || Second(c) then 0 else 1))
    + (if c.coinBase then 1 else 0) + (if First(c) then 2 else 0) + (if Second(c) then 4 else 0)
  }

  /** What the writer accepts: something unspent, at non-negative values. */
  ghost predicate Writable(c: Coins) { !c.IsPruned() && Priced(c.vout) }

  /** What survives unchanged: also nothing spent at the end, spent outputs blank, no negative numbers. */
  ghost predicate Storable(c: Coins)
  {
    Writable(c) && c.WellFormed() && c.version >= 0 && c.height >= 0
  }

  lemma CodePositive(c: Coins)
    requires Storable(c)
    ensures Code(c) >= 0
    ensures LastUsed(c.vout, MaskBytes(|c.vout|)) == MaskBytes(|c.vout|)
  {
    hide MaskByte, NonZero;
    if |c.vout| > 2 {
      LastByteUsed(c.vout);
      LastCounts(c.vout, 0, MaskBytes(|c.vout|));
    } else {
      SmallAvailable(c);
    }
  }

  lemma SmallAvailable(c: Coins)
    requires !c.IsPruned() && |c.vout| <= 2
    ensures First(c) || Second(c)
  {
    var i :| 0 <= i < |c.vout| && !c.vout[i].IsNull();
  }

  ghost function Ser(k: ScriptCodec, c: Coins): seq<Byte>
    requires Writable(c)
  {
    CodeNatural(c);
    VarInt(Wrap(c.version)) + VarInt(Code(c)) + Mask(c.vout, 0, LastUsed(c.vout, MaskBytes(|c.vout|))) + Outs(k, c.vout)
    + VarInt(Wrap(c.height))
  }

  function Unser(k: ScriptCodec, s: seq<Byte>): Option<(Coins, seq<Byte>)>
  {
    match ReadVar(s, 0)
    case None => None
    case Some((version, s1)) =>
      match ReadVar(s1, 0)
      case None => None
      case Some((code, s2)) => UnserBody(k, version, code, s2)
  }

  function UnserBody(k: ScriptCodec, version: nat, code: nat, s2: seq<Byte>): Option<(Coins, seq<Byte>)>
  {
    var f, g := code / 2 % 2 == 1, code / 4 % 2 == 1;
    match ReadMask(s2, code / 8 + (if f || g then 0 else 1))
    case None => None
    case Some((bits, s3)) =>
      match ReadOuts(k, s3, [f, g] + bits)
      case None => None
      case Some((vout, s4)) =>
        match ReadVar(s4, 0)
        case None => None
        case Some((height, s5)) => Some((Coins(code % 2 == 1, Trim(vout), height, version), s5))
  }

  lemma HeaderBits(code: nat, m: int, a: nat, b: nat, d: nat)
    requires a <= 1 && b <= 1 && d <= 1 && code == 8 * m + a + 2 * b + 4 * d
    ensures code % 2 == a && code / 2 % 2 == b && code / 4 % 2 == d && code / 8 == m
  {
    assert code / 2 == 4 * m + b + 2 * d;
    assert code / 4 == 2 * m + d;
  }

  lemma CodeParts(c: Coins, code: nat)
    requires code == Code(c)
    ensures (code % 2 == 1) == c.coinBase && (code / 2 % 2 == 1) == First(c) && (code / 4 % 2 == 1) == Second(c)
    ensures code / 8 + (if First(c) || Second(c) then 0 else 1) == NonZero(c.vout, 0, MaskBytes(|c.vout|))
  {
    hide NonZero, MaskBytes, First, Second;
    var a, b, d := if c.coinBase then 1 else 0, if First(c) then 1 else 0, if Second(c) then 1 else 0;
    HeaderBits(code, NonZero(c.vout, 0, MaskBytes(|c.vout|)) - (if First(c) || Second(c) then 0 else 1), a, b, d);
  }

  function Padded(c: Coins): seq<TxOut> { c.vout + Nulls(2 + 8 * MaskBytes(|c.vout|) - |c.vout|) }

  lemma AvailPadded(c: Coins)
    ensures Avail(Padded(c)) == [First(c), Second(c)] + MaskBits(c.vout, 0, MaskBytes(|c.vout|))
  {
    hide MaskByte, Bits, MaskBits;
    var n := MaskBytes(|c.vout|);
    MaskBitsAre(c.vout, 0, n);
    var a, b := Avail(Padded(c)), [First(c), Second(c)] + MaskBits(c.vout, 0, n);
    forall i | 0 <= i < |a| ensures a[i] == b[i] {}
  }

  lemma {:induction false} TrimPadded(vout: seq<TxOut>, n: nat)
    requires Trimmed(vout)
    ensures Trim(vout + Nulls(n)) == vout
  {
    if n > 0 {
      assert (vout + Nulls(n))[..|vout| + n - 1] == vout + Nulls(n - 1);
      TrimPadded(vout, n - 1);
    } else {
      assert vout + Nulls(n) == vout;
    }
  }

  lemma BodySteps(k: ScriptCodec, version: nat, code: nat, s2: seq<Byte>, f: bool, g: bool, bits: seq<bool>, s3: seq<Byte>,
                  vout: seq<TxOut>, s4: seq<Byte>, height: nat, s5: seq<Byte>)
    requires f == (code / 2 % 2 == 1) && g == (code / 4 % 2 == 1)
    requires ReadMask(s2, code / 8 + (if f || g then 0 else 1)) == Some((bits, s3))
    requires ReadOuts(k, s3, [f, g] + bits) == Some((vout, s4)) && ReadVar(s4, 0) == Some((height, s5))
    ensures UnserBody(k, version, code, s2) == Some((Coins(code % 2 == 1, Trim(vout), height, version), s5))
  {
    hide ReadVar, ReadMask, ReadOuts, Trim;
  }

  lemma HeadSteps(k: ScriptCodec, s: seq<Byte>, version: nat, s1: seq<Byte>, code: nat, s2: seq<Byte>)
    requires ReadVar(s, 0) == Some((version, s1)) && ReadVar(s1, 0) == Some((code, s2))
    ensures Unser(k, s) == UnserBody(k, version, code, s2)
  {
    hide ReadVar, UnserBody;
  }

  lemma Regrouped(a: seq<Byte>, b: seq<Byte>, c: seq<Byte>, d: seq<Byte>, e: seq<Byte>, rest: seq<Byte>)
    ensures a + b + c + d + e + rest == a + (b + (c + (d + (e + rest))))
  {}

  /** Reading back a record in its stored form returns it, whatever follows. */
  lemma StorableRoundTrip(k: ScriptCodec, c: Coins, rest: seq<Byte>)
    requires Faithful(k) && Storable(c)
    ensures Unser(k, Ser(k, c) + rest) == Some((c, rest))
  {
    hide ReadVar, VarInt, ReadMask, Mask, MaskBits, NonZero, LastUsed, Outs, ReadOuts, MaskByte, MaskBytes, Faithful, Code, First, Second, Unser, UnserBody, Trim;
    CodePositive(c);
    CodeParts(c, Code(c));
    var n := MaskBytes(|c.vout|);
    var s4 := VarInt(c.height) + rest;
    var s3 := Outs(k, c.vout) + s4;
    var s2 := Mask(c.vout, 0, n) + s3;
    var s1 := VarInt(Code(c)) + s2;
    Regrouped(VarInt(c.version), VarInt(Code(c)), Mask(c.vout, 0, n), Outs(k, c.vout), VarInt(c.height), rest);
    VarRoundTrip(c.version, s1);
    VarRoundTrip(Code(c), s2);
    LastByteIfAny(c);
    MaskRoundTrip(c.vout, 0, n, s3);
    PaddedOuts(k, c, s4);
    VarRoundTrip(c.height, rest);
    HeadSteps(k, Ser(k, c) + rest, c.version, s1, Code(c), s2);
    BodySteps(k, c.version, Code(c), s2, First(c), Second(c), MaskBits(c.vout, 0, n), s3, Padded(c), s4, c.height, rest);
  }

  lemma PaddedOuts(k: ScriptCodec, c: Coins, rest: seq<Byte>)
    requires Faithful(k) && Storable(c)
    ensures ReadOuts(k, Outs(k, c.vout) + rest, [First(c), Second(c)] + MaskBits(c.vout, 0, MaskBytes(|c.vout|))) == Some((Padded(c), rest))
    ensures Trim(Padded(c)) == c.vout
  {
    hide MaskBits, ReadOuts, Outs, Faithful, Trim, First, Second;
    var pad := 2 + 8 * MaskBytes(|c.vout|) - |c.vout|;
    OutsPadded(k, c.vout, pad);
    OutsRoundTrip(k, Padded(c), rest);
    AvailPadded(c);
    TrimPadded(c.vout, pad);
  }

  // ---- any other record is stored as its normal form ----

  function Blank(vout: seq<TxOut>): (r: seq<TxOut>)
    ensures |r| == |vout| && forall i | 0 <= i < |vout| :: r[i] == if vout[i].IsNull() then NULL_OUT else vout[i]
  {
    seq(|vout|, i requires 0 <= i < |vout| => if vout[i].IsNull() then NULL_OUT else vout[i])
  }

  /** The stored form of a record. */
  function Normal(c: Coins): Coins { Coins(c.coinBase, Trim(Blank(c.vout)), Wrap(c.height), Wrap(c.version)) }

  lemma NormalStorable(c: Coins)
    requires Writable(c)
    ensures Storable(Normal(c))
  {
    var v := Trim(Blank(c.vout));
    var i :| 0 <= i < |c.vout| && !c.vout[i].IsNull();
    assert !Blank(c.vout)[i].IsNull();
    assert i < |v| && !v[i].IsNull();
  }

  /** The stored form is the record itself exactly when the record is in that form. */
  lemma NormalIff(c: Coins)
    requires Writable(c)
    ensures Normal(c) == c <==> Storable(c)
  {
    if Storable(c) {
      assert Blank(c.vout) == c.vout;
      TrimTrimmed(c.vout);
    } else {
      NormalStorable(c);
    }
  }

  lemma TrimTrimmed(vout: seq<TxOut>)
    requires Trimmed(vout)
    ensures Trim(vout) == vout
  {}

  lemma NormalBit(c: Coins, j: nat)
    ensures Bit(c.vout, j) == Bit(Normal(c).vout, j)
  {}

  lemma {:induction false} NormalPack(c: Coins, j: nat, n: nat)
    ensures Pack(c.vout, j, n) == Pack(Normal(c).vout, j, n)
    decreases n
  {
    hide Bit, Pow, Normal;
    if n > 0 {
      NormalBit(c, j);
      NormalPack(c, j + 1, n - 1);
    }
  }

  lemma NormalByte(c: Coins, b: nat)
    ensures MaskByte(c.vout, b) == MaskByte(Normal(c).vout, b)
  {
    hide Pack, Normal;
    NormalPack(c, 2 + b * 8, 8);
  }

  lemma {:induction false} NormalMask(c: Coins, b: nat, n: nat)
    ensures Mask(c.vout, b, n) == Mask(Normal(c).vout, b, n) && NonZero(c.vout, b, n) == NonZero(Normal(c).vout, b, n)
    decreases n - b
  {
    hide MaskByte, Normal;
    if b < n {
      NormalByte(c, b);
      NormalMask(c, b + 1, n);
    }
  }

  lemma {:induction false} NormalLast(c: Coins, n: nat)
    ensures LastUsed(c.vout, n) == LastUsed(Normal(c).vout, n)
  {
    hide MaskByte, Normal;
    if n > 0 {
      NormalByte(c, n - 1);
      NormalLast(c, n - 1);
    }
  }

  lemma PastEnd(vout: seq<TxOut>, b: nat)
    requires b >= MaskBytes(|vout|)
    ensures MaskByte(vout, b) == 0
  {
    RestClear(vout, 2 + b * 8, 8);
    hide Pack;
  }

  /** Mask bytes past the end are zero: they are neither counted nor written. */
  lemma {:induction false} ZeroBytesIgnored(vout: seq<TxOut>, n: nat)
    requires n >= MaskBytes(|vout|)
    ensures LastUsed(vout, n) == LastUsed(vout, MaskBytes(|vout|))
    decreases n
  {
    hide MaskByte;
    if n > MaskBytes(|vout|) {
      PastEnd(vout, n - 1);
      ZeroBytesIgnored(vout, n - 1);
    }
  }

  lemma {:induction false} ZeroBytesUncounted(vout: seq<TxOut>, b: nat, n: nat)
    requires n >= MaskBytes(|vout|)
    ensures NonZero(vout, b, n) == NonZero(vout, b, MaskBytes(|vout|))
    decreases n - b
  {
    hide MaskByte;
    if b < n {
      if b >= MaskBytes(|vout|) { PastEnd(vout, b); }
      ZeroBytesUncounted(vout, b + 1, n);
    }
  }

  lemma NormalShorter(c: Coins)
    ensures MaskBytes(|Normal(c).vout|) <= MaskBytes(|c.vout|)
    ensures First(Normal(c)) == First(c) && Second(Normal(c)) == Second(c)
  {
    NormalBit(c, 0);
    NormalBit(c, 1);
    assert |Trim(Blank(c.vout))| <= |c.vout|;
  }

  lemma NormalCode(c: Coins)
    requires Writable(c)
    ensures Code(c) == Code(Normal(c))
    ensures LastUsed(c.vout, MaskBytes(|c.vout|)) == MaskBytes(|Normal(c).vout|)
  {
    NormalShorter(c);
    assert Normal(c).coinBase == c.coinBase;
    hide NonZero, LastUsed, MaskBytes, Normal, First, Second;
    var n := MaskBytes(|c.vout|);
    NormalMask(c, 0, n);
    ZeroBytesUncounted(Normal(c).vout, 0, n);
    NormalLast(c, n);
    ZeroBytesIgnored(Normal(c).vout, n);
    NormalStorable(c);
    CodePositive(Normal(c));
  }

  lemma CodeNatural(c: Coins)
    requires Writable(c)
    ensures Code(c) >= 0
  {
    hide Code, Normal;
    NormalCode(c);
    NormalStorable(c);
    CodePositive(Normal(c));
  }

  lemma {:induction false} OutsBlank(k: ScriptCodec, vout: seq<TxOut>)
    requires Priced(vout)
    ensures Priced(Blank(vout)) && Outs(k, Blank(vout)) == Outs(k, vout)
  {
    hide EncOut;
    if vout != [] {
      assert Blank(vout)[1..] == Blank(vout[1..]);
      OutsBlank(k, vout[1..]);
    }
  }

  lemma {:induction false} OutsTrim(k: ScriptCodec, vout: seq<TxOut>)
    requires Priced(vout) && Blanked(vout)
    ensures Priced(Trim(vout)) && Outs(k, Trim(vout)) == Outs(k, vout)
  {
    hide EncOut;
    var t := Trim(vout);
    assert vout == t + Nulls(|vout| - |t|);
    OutsPadded(k, t, |vout| - |t|);
  }

  /** A record and its stored form are written alike. */
  lemma NormalWrites(k: ScriptCodec, c: Coins)
    requires Writable(c)
    ensures Storable(Normal(c)) && Ser(k, c) == Ser(k, Normal(c))
  {
    hide Code, Mask, Outs, LastUsed, MaskBytes, VarInt, Normal;
    NormalStorable(c);
    NormalCode(c);
    NormalCode(Normal(c));
    NormalIff(Normal(c));
    NormalMask(c, 0, MaskBytes(|Normal(c).vout|));
    NormalOuts(k, c);
    NormalWraps(c);
  }

  lemma NormalOuts(k: ScriptCodec, c: Coins)
    requires Priced(c.vout)
    ensures Priced(Normal(c).vout) && Outs(k, Normal(c).vout) == Outs(k, c.vout)
  {
    hide Outs;
    OutsBlank(k, c.vout);
    OutsTrim(k, Blank(c.vout));
  }

  lemma NormalWraps(c: Coins)
    ensures Wrap(Normal(c).version) == Wrap(c.version) && Wrap(Normal(c).height) == Wrap(c.height)
  {}

  /** Main result: for every record the writer accepts, reading what was written returns its stored form, and
      what followed; that is the record itself if and only if it is trimmed, blank where spent, and has no
      negative number. */
  lemma RecordRoundTrip(k: ScriptCodec, c: Coins, rest: seq<Byte>)
    requires Faithful(k) && Writable(c)
    ensures Unser(k, Ser(k, c) + rest) == Some((Normal(c), rest))
    ensures Normal(c) == c <==> Storable(c)
  {
    hide Ser, Unser, Normal, Faithful, Storable;
    NormalWrites(k, c);
    StorableRoundTrip(k, Normal(c), rest);
    NormalIff(c);
  }

  lemma LastByteIfAny(c: Coins)
    requires Storable(c)
    ensures 0 < MaskBytes(|c.vout|) ==> MaskByte(c.vout, MaskBytes(|c.vout|) - 1) != 0
  {
    if |c.vout| > 2 { LastByteUsed(c.vout); }
  }

  // ---- the programs ----

  lemma {:induction false} PackZero(vout: seq<TxOut>, j: nat, n: nat)
    ensures Pack(vout, j, n) == 0 <==> forall m: nat | j <= m < j + n :: Bit(vout, m) == 0
    decreases n
  {
    hide Bit, Pow;
    if n > 0 { PackZero(vout, j + 1, n - 1); }
  }

  /** The inner loop of `CalcMaskSize`. */
  method ByteIsZero(vout: seq<TxOut>, b: nat) returns (zero: bool)
    ensures zero == (MaskByte(vout, b) == 0)
  {
    hide Pack;
    PackZero(vout, 2 + b * 8, 8);
    zero := true;
    var i: nat := 0;
    while i < 8 && 2 + b * 8 + i < |vout|
      invariant i <= 8
      invariant zero == forall m: nat | 2 + b * 8 <= m < 2 + b * 8 + i :: Bit(vout, m) == 0
    {
      if !vout[2 + b * 8 + i].IsNull() {
        assert Bit(vout, 2 + b * 8 + i) == 1;
        zero := false;
      }
      i := i + 1;
    }
  }

  method CalcMaskSize(vout: seq<TxOut>) returns (nBytes: nat, nNonzero: nat)
    ensures nBytes == LastUsed(vout, MaskBytes(|vout|)) && nNonzero == NonZero(vout, 0, MaskBytes(|vout|))
  {
    hide MaskByte;
    nBytes, nNonzero := 0, 0;
    var b: nat := 0;
    while 2 + b * 8 < |vout|
      invariant b <= MaskBytes(|vout|) && nBytes == LastUsed(vout, b)
      invariant NonZero(vout, 0, MaskBytes(|vout|)) == nNonzero + NonZero(vout, b, MaskBytes(|vout|))
    {
      var zero := ByteIsZero(vout, b);
      if !zero {
        nBytes := b + 1;
        nNonzero := nNonzero + 1;
      }
      b := b + 1;
    }
  }

  lemma {:induction false} PackSplit(vout: seq<TxOut>, j: nat, i: nat, n: nat)
    requires i <= n
    ensures Pack(vout, j, n) == Pack(vout, j, i) + Pow(2, i) * Pack(vout, j + i, n - i)
    decreases i
  {
    assert Pow(2, 0) == 1;
    hide Pow, Bit;
    if i > 0 {
      PackSplit(vout, j + 1, i - 1, n - 1);
      assert j + 1 + (i - 1) == j + i && n - 1 - (i - 1) == n - i;
      PowSucc(2, i - 1);
      PackUnfolds(vout, j, i);
      PackUnfolds(vout, j, n);
      hide Pack;
      Doubled(Pow(2, i - 1), Pack(vout, j + i, n - i));
    }
  }

  lemma PackUnfolds(vout: seq<TxOut>, j: nat, n: nat)
    requires n > 0
    ensures Pack(vout, j, n) == Bit(vout, j) + 2 * Pack(vout, j + 1, n - 1)
  {
    hide Bit;
  }

  lemma Doubled(p: nat, x: nat)
    ensures 2 * (p * x) == (2 * p) * x
  {}

  lemma AddBit(vout: seq<TxOut>, j: nat, i: nat)
    ensures Pack(vout, j, i + 1) == Pack(vout, j, i) + (if Bit(vout, j + i) == 1 then Pow(2, i) else 0)
  {
    hide Pack, Pow, Bit;
    PackSplit(vout, j, i, i + 1);
    OneBit(vout, j + i);
    if Bit(vout, j + i) == 1 { assert Pow(2, i) * 1 == Pow(2, i); } else { assert Pow(2, i) * 0 == 0; }
  }

  lemma ByteDone(vout: seq<TxOut>, j: nat, i: nat)
    requires i <= 8 && (i == 8 || j + i >= |vout|)
    ensures Pack(vout, j, 8) == Pack(vout, j, i)
  {
    hide Pack, Pow, Bit;
    PackSplit(vout, j, i, 8);
    RestClear(vout, j + i, 8 - i);
    assert Pow(2, i) * 0 == 0;
  }

  /** The inner loop of `Serialize`: setting bit `i` of a byte whose bits from `i` on are clear adds 2^i. */
  method MakeByte(vout: seq<TxOut>, b: nat) returns (ch: Byte)
    ensures ch == MaskByte(vout, b)
  {
    hide Pow, Pack;
    ghost var j := 2 + b * 8;
    Pow2of8();
    NoBitsYet(vout, j);
    var c: nat := 0;
    var weight: nat := 1;
    var i: nat := 0;
    while i < 8 && 2 + b * 8 + i < |vout|
      invariant i <= 8 && c == Pack(vout, j, i) && weight == Pow(2, i)
    {
      AddBit(vout, j, i);
      PowSucc(2, i);
      if !vout[2 + b * 8 + i].IsNull() { c := c + weight; }
      weight := weight * 2;
      i := i + 1;
    }
    ByteDone(vout, j, i);
    ch := c;
  }

  lemma NoBitsYet(vout: seq<TxOut>, j: nat)
    ensures Pow(2, 0) == 1 && Pack(vout, j, 0) == 0
  {}

  lemma OneBit(vout: seq<TxOut>, j: nat)
    ensures Pack(vout, j, 1) == Bit(vout, j)
  {
    assert Pack(vout, j + 1, 0) == 0;
  }

  lemma RestClear(vout: seq<TxOut>, j: nat, n: nat)
    requires n == 0 || j >= |vout|
    ensures Pack(vout, j, n) == 0
  {
    PackZero(vout, j, n);
    hide Pack;
  }

  method WriteMask(vout: seq<TxOut>, n: nat) returns (r: seq<Byte>)
    ensures r == Mask(vout, 0, n)
  {
    hide MaskByte;
    r := [];
    var b: nat := 0;
    while b < n
      invariant b <= n && Mask(vout, 0, n) == r + Mask(vout, b, n)
    {
      var ch := MakeByte(vout, b);
      assert r + ([ch] + Mask(vout, b + 1, n)) == r + [ch] + Mask(vout, b + 1, n);
      r := r + [ch];
      b := b + 1;
    }
    assert r + [] == r;
  }

  method WriteOuts(k: ScriptCodec, vout: seq<TxOut>) returns (r: seq<Byte>)
    requires Priced(vout)
    ensures r == Outs(k, vout)
  {
    hide EncOut, Outs;
    r := [];
    var i: nat := 0;
    assert vout[0..] == vout;
    assert [] + Outs(k, vout) == Outs(k, vout);
    while i < |vout|
      invariant i <= |vout| && Outs(k, vout) == r + Outs(k, vout[i..])
    {
      OutsStep(k, vout, i);
      if !vout[i].IsNull() {
        assert r + (EncOut(k, vout[i]) + Outs(k, vout[i + 1..])) == r + EncOut(k, vout[i]) + Outs(k, vout[i + 1..]);
        r := r + EncOut(k, vout[i]);
      } else {
        assert [] + Outs(k, vout[i + 1..]) == Outs(k, vout[i + 1..]);
      }
      i := i + 1;
    }
    NoOuts(k);
    assert vout[i..] == [] && r + [] == r;
  }

  lemma OutsStep(k: ScriptCodec, vout: seq<TxOut>, i: nat)
    requires Priced(vout) && i < |vout|
    ensures Priced(vout[i..]) && Priced(vout[i + 1..])
    ensures Outs(k, vout[i..]) == (if vout[i].IsNull() then [] else EncOut(k, vout[i])) + Outs(k, vout[i + 1..])
  {
    hide EncOut;
    assert vout[i..][1..] == vout[i + 1..];
  }

  lemma NoOuts(k: ScriptCodec)
    ensures Outs(k, []) == []
  {}

  method Serialize(k: ScriptCodec, c: Coins) returns (r: seq<Byte>)
    requires Writable(c)
    ensures r == Ser(k, c)
  {
    CodeNatural(c);
    var nMaskSize, nMaskCode := CalcMaskSize(c.vout);
    var first, second := |c.vout| > 0 && !c.vout[0].IsNull(), |c.vout| > 1 && !c.vout[1].IsNull();
    var code := 8 * (nMaskCode - (if first || second then 0 else 1)) + (if c.coinBase then 1 else 0)
                + (if first then 2 else 0) + (if second then 4 else 0);
    assert code == Code(c);
    hide VarInt, Mask, Outs, MaskByte, Code, LastUsed, NonZero;
    var a := WriteVarInt(c.version);
    var b := WriteVarInt(code);
    var m := WriteMask(c.vout, nMaskSize);
    var o := WriteOuts(k, c.vout);
    var h := WriteVarInt(c.height);
    r := a + b + m + o + h;
  }

  method TakeMask(s: seq<Byte>, code: nat) returns (r: Option<(seq<bool>, seq<Byte>)>)
    ensures r == ReadMask(s, code)
  {
    hide Bits;
    var bits: seq<bool> := [];
    var left := code;
    var i: nat := 0;
    assert s[0..] == s;
    PrependNothing(ReadMask(s, code));
    while left > 0 && i < |s|
      invariant i <= |s|
      invariant ReadMask(s, code) == Prepend(bits, ReadMask(s[i..], left))
    {
      assert s[i..][1..] == s[i + 1..];
      PrependTwice(bits, Bits(s[i]), ReadMask(s[i + 1..], if s[i] != 0 then left - 1 else left));
      bits := bits + Bits(s[i]);
      if s[i] != 0 { left := left - 1; }
      i := i + 1;
    }
    if left > 0 { return None; }
    assert bits + [] == bits;
    return Some((bits, s[i..]));
  }

  function Prepend<T>(a: seq<T>, r: Option<(seq<T>, seq<Byte>)>): Option<(seq<T>, seq<Byte>)>
  {
    match r
    case None => None
    case Some((v, t)) => Some((a + v, t))
  }

  lemma PrependTwice<T>(a: seq<T>, b: seq<T>, r: Option<(seq<T>, seq<Byte>)>)
    ensures Prepend(a, Prepend(b, r)) == Prepend(a + b, r)
  {
    match r
    case None =>
    case Some((v, t)) => assert a + (b + v) == a + b + v;
  }

  method TakeOuts(k: ScriptCodec, s: seq<Byte>, avail: seq<bool>) returns (r: Option<(seq<TxOut>, seq<Byte>)>)
    ensures r == ReadOuts(k, s, avail)
  {
    hide ReadOut;
    var vout: seq<TxOut> := [];
    var left := s;
    var i: nat := 0;
    assert avail[0..] == avail;
    PrependNothing(ReadOuts(k, s, avail));
    while i < |avail|
      invariant i <= |avail| && |vout| == i
      invariant ReadOuts(k, s, avail) == Prepend(vout, ReadOuts(k, left, avail[i..]))
    {
      assert avail[i..][1..] == avail[i + 1..];
      if avail[i] {
        var o := ReadOut(k, left);
        if o.None? { return None; }
        PrependTwice(vout, [o.value.0], ReadOuts(k, o.value.1, avail[i + 1..]));
        vout, left := vout + [o.value.0], o.value.1;
      } else {
        PrependTwice(vout, [NULL_OUT], ReadOuts(k, left, avail[i + 1..]));
        vout := vout + [NULL_OUT];
      }
      i := i + 1;
    }
    assert vout + [] == vout;
    return Some((vout, left));
  }

  lemma PrependNothing<T>(r: Option<(seq<T>, seq<Byte>)>)
    ensures Prepend([], r) == r
  {
    match r
    case None =>
    case Some((v, t)) => assert [] + v == v;
  }

  method Unserialize(k: ScriptCodec, s: seq<Byte>) returns (r: Option<(Coins, seq<Byte>)>)
    ensures r == Unser(k, s)
  {
    hide ReadVar, ReadMask, ReadOuts;
    var version := ReadVarInt(s);
    if version.None? { return None; }
    var c := ReadVarInt(version.value.1);
    if c.None? { return None; }
    var code := c.value.0;
    var f, g := code / 2 % 2 == 1, code / 4 % 2 == 1;
    var nMaskCode := code / 8 + (if f || g then 0 else 1);
    var bits := TakeMask(c.value.1, nMaskCode);
    if bits.None? { return None; }
    var outs := TakeOuts(k, bits.value.1, [f, g] + bits.value.0);
    if outs.None? { return None; }
    var height := ReadVarInt(outs.value.1);
    if height.None? { return None; }
    var vout := outs.value.0;
    ghost var full := vout;
    while |vout| > 0 && vout[|vout| - 1].IsNull()
      invariant Trim(vout) == Trim(full)
      decreases |vout|
    {
      vout := vout[..|vout| - 1];
    }
    return Some((Coins(code % 2 == 1, vout, height.value.0, version.value.0), height.value.1));
  }

  // ---- undo entries ----

  ghost function SerUndo(k: ScriptCodec, u: TxInUndo): seq<Byte>
    requires u.height >= 0 && u.out.value >= 0
  {
    VarInt(u.height * 2 + (if u.coinBase then 1 else 0)) + (if u.height > 0 then VarInt(Wrap(u.version)) else []) + EncOut(k, u.out)
  }

  /** Without a height there is no version, and the reader leaves 0. */
  function UnserUndo(k: ScriptCodec, s: seq<Byte>): Option<(TxInUndo, seq<Byte>)>
  {
    match ReadVar(s, 0)
    case None => None
    case Some((code, t)) =>
      match (if code / 2 > 0 then ReadVar(t, 0) else Some((0, t)))
      case None => None
      case Some((version, u)) =>
        match ReadOut(k, u)
        case None => None
        case Some((o, v)) => Some((TxInUndo(o, code % 2 == 1, code / 2, version), v))
  }

  /** The stored form of an undo entry: a version is kept only with a height, and of a negative one only the
      last seven bits. */
  function NormalUndo(u: TxInUndo): TxInUndo { u.(version := if u.height > 0 then Wrap(u.version) else 0) }

  /** Reading back an undo entry returns its stored form, whatever follows. */
  lemma UndoReadsBack(k: ScriptCodec, u: TxInUndo, rest: seq<Byte>)
    requires Faithful(k) && u.height >= 0 && u.out.value >= 0
    ensures UnserUndo(k, SerUndo(k, u) + rest) == Some((NormalUndo(u), rest))
  {
    hide ReadVar, VarInt, EncOut, ReadOut, Faithful, Wrap;
    var code := u.height * 2 + (if u.coinBase then 1 else 0);
    var b := EncOut(k, u.out) + rest;
    var a := if u.height > 0 then VarInt(Wrap(u.version)) else [];
    assert SerUndo(k, u) + rest == VarInt(code) + (a + b);
    VarRoundTrip(code, a + b);
    VarRoundTrip(Wrap(u.version), b);
    assert u.height == 0 ==> a + b == b;
    OutRoundTrip(k, u.out, rest);
    assert code / 2 == u.height && (code % 2 == 1) == u.coinBase;
  }

  /** The stored form is written as the entry was, so the checksum of what is read back is the one written. */
  lemma NormalUndoWrites(k: ScriptCodec, u: TxInUndo)
    requires u.height >= 0 && u.out.value >= 0
    ensures SerUndo(k, NormalUndo(u)) == SerUndo(k, u) && NormalUndo(NormalUndo(u)) == NormalUndo(u)
  {
    hide VarInt, EncOut;
  }

  /** An undo entry survives storage exactly when it has a height and a version that is not negative, or has
      neither. */
  lemma UndoRoundTrip(k: ScriptCodec, u: TxInUndo, rest: seq<Byte>)
    requires Faithful(k) && u.height >= 0 && u.out.value >= 0
    ensures UnserUndo(k, SerUndo(k, u) + rest) == Some((u, rest)) <==> if u.height > 0 then u.version >= 0 else u.version == 0
  {
    hide SerUndo, UnserUndo, Faithful;
    UndoReadsBack(k, u, rest);
  }

  /** The undo entry of the spend in `UtxoUndo.HeightZeroRecordIsLost` has no height: stored and read back, it
      has lost the version. */
  lemma HeightZeroUndoLosesVersion(k: ScriptCodec, rest: seq<Byte>)
    requires Faithful(k)
    ensures var u := SpendOut(UtxoUndo.GENESIS, 0).1;
            && u == TxInUndo(TxOut(5, []), true, 0, 1)
            && UnserUndo(k, SerUndo(k, u) + rest) == Some((u.(version := 0), rest))
  {
    UtxoUndo.EmptiesPayer(UtxoUndo.GENESIS);
    hide SerUndo, UnserUndo, Faithful, SpendOut;
    UndoReadsBack(k, TxInUndo(TxOut(5, []), true, 0, 1), rest);
  }

  /** A negative version is written as one byte, here 127, and comes back as that number. */
  lemma NegativeVersionComesBackWrong(k: ScriptCodec, rest: seq<Byte>)
    requires Faithful(k)
    ensures var u := TxInUndo(TxOut(5, []), true, 5, -1);
            && SerUndo(k, u) == [11, 127] + EncOut(k, u.out)
            && UnserUndo(k, SerUndo(k, u) + rest) == Some((u.(version := 127), rest))
  {
    var u := TxInUndo(TxOut(5, []), true, 5, -1);
    assert VarInt(11) == [11] && VarInt(Wrap(-1)) == [127];
    assert [11] + [127] == [11, 127];
    UndoReadsBack(k, u, rest);
    hide VarInt, EncOut, UnserUndo, Faithful;
  }
}
