/** The compact form of proof-of-work targets: a size in bytes and a 23-bit mantissa (`SetCompact`, `GetCompact`). */
module Compact {
  import opened Numerals

  const B3: nat := 0x100_0000        // 256^3
  const SIGN: nat := 0x80_0000
  const LEAST: nat := 0x8000

  function NumBytes(x: nat): nat { if x == 0 then 0 else 1 + NumBytes(x / 256) }

  /** 256^n. */
  function P(n: nat): (p: nat)
    ensures p >= 1
  {
    PowPositive(256, n);
    Pow(256, n)
  }

  function Times(a: nat, b: nat): nat { a * b }

  function Quotient(a: nat, b: nat): nat requires b >= 1 { a / b }

  /** Size and mantissa of a non-negative number: the three leading bytes, or two if the sign bit would be set. */
  function Parts(x: nat): (nat, nat)
  {
    var n := NumBytes(x);
    var m := if n <= 3 then Times(x, P(3 - n)) else Quotient(x, P(n - 3));
    if m / SIGN % 2 == 1 then (n + 1, m / 256) else (n, m)
  }

  function Encode(x: nat): nat { Parts(x).0 * B3 + Parts(x).1 }

  /** `GetCompact` of any integer: a negative one sets the sign bit. */
  function EncodeInt(x: int): nat { if x < 0 then Encode(-x) + SIGN else Encode(x) }

  function Decode(c: nat): int
  {
    var size := c / B3;
    var word := c % SIGN;
    var v := if size <= 3 then word / P(3 - size) else word * P(size - 3);
    if c / SIGN % 2 == 1 then -v else v
  }

  // ---- one inequality says it all ----

  /** `w` is the floor of x / 256^(s - 3), and has between 16 and 23 bits. */
  ghost predicate Fits(x: nat, s: nat, w: nat)
  {
    LEAST <= w < SIGN && w * P(s) <= x * B3 < (w + 1) * P(s)
  }

  lemma SmallPowers()
    ensures P(0) == 1 && P(1) == 256 && P(2) == 0x1_0000 && P(3) == B3 && P(4) == 0x1_0000_0000
  {}

  lemma NextP(n: nat)
    ensures P(n + 1) == 256 * P(n)
  {
    PowSucc(256, n);
  }

  lemma {:induction false} NumBytesBounds(x: nat)
    requires x > 0
    ensures NumBytes(x) >= 1 && P(NumBytes(x) - 1) <= x < P(NumBytes(x))
  {
    SmallPowers();
    if x >= 256 {
      var n := NumBytes(x / 256);
      NumBytesBounds(x / 256);
      NextP(n - 1);
      NextP(n);
      hide P;
      assert NumBytes(x) == n + 1;
    } else {
      assert NumBytes(x / 256) == 0;
    }
  }

  /** Mantissas of numbers of more than three bytes. */
  lemma BigQuotient(x: nat, q: nat, m: nat)
    requires q >= 1 && m == x / q && 0x1_0000 * q <= x < B3 * q
    ensures 0x1_0000 <= m < B3 && m * q <= x < (m + 1) * q
  {
    DivMod(x, q);
    assert (m + 1) * q == m * q + q;
    if m < 0x1_0000 { MulMono(m + 1, 0x1_0000, q, q); }
    if m >= B3 { MulMono(B3, m, q, q); }
  }

  lemma ShiftMantissa(x: nat, p: nat, m: nat)
    requires m * p <= x < (m + 1) * p
    ensures (m / 256) * (256 * p) <= x < (m / 256 + 1) * (256 * p)
  {
    var w := m / 256;
    assert w * (256 * p) == (w * 256) * p;
    assert (w + 1) * (256 * p) == ((w + 1) * 256) * p;
    MulMono(w * 256, m, p, p);
    MulMono(m + 1, (w + 1) * 256, p, p);
  }

  lemma Scale(w: nat, q: nat, x: nat, p: nat)
    requires w * q <= x < (w + 1) * q && p == q * B3
    ensures w * p <= x * B3 < (w + 1) * p
  {
    assert w * p == (w * q) * B3 && (w + 1) * p == ((w + 1) * q) * B3;
  }

  lemma PartsFitSmall(x: nat)
    requires 0 < x && NumBytes(x) <= 3
    ensures Fits(x, Parts(x).0, Parts(x).1)
  {
    hide P, NumBytes, Fits;
    NumBytesBounds(x);
    SmallPowers();
    var n := NumBytes(x);
    if n == 1 { TopBit(x * 0x1_0000); FitsOne(x); } else if n == 2 { TopBit(x * 256); FitsTwo(x); } else { TopBit(x); FitsThree(x); }
  }

  lemma FitsOne(x: nat)
    requires 0 < x < 256
    ensures if x < 128 then Fits(x, 1, x * 0x1_0000) else Fits(x, 2, x * 0x1_0000 / 256)
  {
    SmallPowers();
    hide P;
  }

  lemma FitsTwo(x: nat)
    requires 256 <= x < 0x1_0000
    ensures if x < LEAST then Fits(x, 2, x * 256) else Fits(x, 3, x * 256 / 256)
  {
    SmallPowers();
    hide P;
  }

  lemma FitsThree(x: nat)
    requires 0x1_0000 <= x < B3
    ensures if x < SIGN then Fits(x, 3, x) else Fits(x, 4, x / 256)
  {
    SmallPowers();
    hide P;
  }

  lemma PartsFitBig(x: nat)
    requires NumBytes(x) > 3 && x > 0
    ensures Fits(x, Parts(x).0, Parts(x).1)
  {
    var n := NumBytes(x);
    NumBytesBounds(x);
    hide NumBytes, P;
    var q := P(n - 3);
    SmallPowers();
    NextP(n - 3);
    NextP(n - 2);
    NextP(n - 1);
    NextP(n);
    var m := x / q;
    BigQuotient(x, q, m);
    Scale(m, q, x, P(n));
    ShiftMantissa(x * B3, P(n), m);
    TopBit(m);
  }

  lemma TopBit(m: nat)
    requires m < B3
    ensures m / SIGN % 2 == 1 <==> m >= SIGN
  {}

  lemma PartsFit(x: nat)
    requires x > 0
    ensures Fits(x, Parts(x).0, Parts(x).1)
  {
    hide Fits, Parts;
    if NumBytes(x) <= 3 { PartsFitSmall(x); } else { PartsFitBig(x); }
  }

  // ---- the code is unique, ordered and nearly exact ----

  lemma {:induction false} PMono(m: nat, n: nat)
    requires m <= n
    ensures P(m) <= P(n)
  {
    PowMonoExp(256, m, n);
  }

  /** A larger number never has a smaller size. */
  lemma SizeMono(x: nat, s: nat, w: nat, y: nat, t: nat, v: nat)
    requires Fits(x, s, w) && Fits(y, t, v) && x <= y
    ensures s <= t
  {
    hide P;
    if s > t {
      NextP(t);
      PMono(t + 1, s);
      MulMono(v + 1, SIGN, P(t), P(t));
      MulMono(LEAST, w, P(t + 1), P(s));
      assert false;
    }
  }

  lemma WordMono(x: nat, y: nat, s: nat, w: nat, v: nat)
    requires Fits(x, s, w) && Fits(y, s, v) && x <= y
    ensures w <= v
  {
    hide P;
    Ordered(v, w, P(s));
    assert (v + 1) * P(s) == v * P(s) + P(s);
  }

  lemma Unique(x: nat, s: nat, w: nat, t: nat, v: nat)
    requires Fits(x, s, w) && Fits(x, t, v)
    ensures s == t && w == v
  {
    hide Fits;
    SizeMono(x, s, w, x, t, v);
    SizeMono(x, t, v, x, s, w);
    WordMono(x, x, s, w, v);
    WordMono(x, x, s, v, w);
  }

  lemma ZeroParts()
    ensures Parts(0) == (0, 0)
  {
    assert NumBytes(0) == 0;
  }

  lemma FitsWord(x: nat, s: nat, w: nat)
    requires Fits(x, s, w)
    ensures LEAST <= w < SIGN
  {}

  /** Encoding is monotone. */
  lemma EncodeMonotone(x: nat, y: nat)
    requires x <= y
    ensures Encode(x) <= Encode(y)
  {
    hide Parts, Fits;
    if x == 0 {
      ZeroParts();
    } else {
      PartsFit(x);
      PartsFit(y);
      var (s, w) := Parts(x);
      var (t, v) := Parts(y);
      SizeMono(x, s, w, y, t, v);
      FitsWord(x, s, w);
      FitsWord(y, t, v);
      if s == t { WordMono(x, y, s, w, v); }
    }
  }

  /** What a size and a mantissa stand for. */
  function Value(s: nat, w: nat): nat { if s <= 3 then w / P(3 - s) else w * P(s - 3) }

  lemma SplitCode(s: nat, w: nat)
    requires w < SIGN
    ensures var c := s * B3 + w; c / B3 == s && c % B3 == w && c % SIGN == w && c / SIGN % 2 == 0
    ensures var c := s * B3 + w + SIGN; c / B3 == s && c % SIGN == w && c / SIGN % 2 == 1
  {
    assert (s * B3 + w) / SIGN == 2 * s && (s * B3 + w + SIGN) / SIGN == 2 * s + 1;
  }

  lemma JoinCode(c: nat)
    requires c / SIGN % 2 == 0
    ensures c % B3 < SIGN && c == c / B3 * B3 + c % B3
  {
    var h, r := c / SIGN / 2, c % SIGN;
    DivMod(c, SIGN);
    DivUnique(c, B3, h, r);
  }

  lemma DecodeParts(s: nat, w: nat)
    requires w < SIGN
    ensures Decode(s * B3 + w) == Value(s, w) && Decode(s * B3 + w + SIGN) + Value(s, w) == 0
  {
    hide P;
    SplitCode(s, w);
  }

  /** Numbers of size 3 or more lose what the mantissa cannot hold; smaller ones nothing. */
  lemma ValueOf(x: nat, s: nat, w: nat)
    requires Fits(x, s, w)
    ensures s >= 3 ==> Value(s, w) * B3 == w * P(s)
    ensures s < 3 ==> Value(s, w) == x && w * P(s) == x * B3
  {
    SmallPowers();
    hide P;
    if s > 3 {
      Split(s);
      assert w * P(s - 3) * B3 == w * (P(s - 3) * B3);
    }
  }

  lemma Split(s: nat)
    requires s >= 3
    ensures P(s) == P(s - 3) * B3
  {
    PowAdd(256, s - 3, 3);
    SmallPowers();
  }

  /** The decoded value is at most the number, and the relative error is below 2^-15. */
  lemma ValueClose(x: nat, s: nat, w: nat)
    requires Fits(x, s, w)
    ensures Value(s, w) <= x && (x - Value(s, w)) * LEAST < x
  {
    ValueOf(x, s, w);
    hide P, Value;
    assert (w + 1) * P(s) == w * P(s) + P(s);
    MulMono(LEAST, w, P(s), P(s));
  }

  lemma EncodeClose(x: nat)
    ensures 0 <= Decode(Encode(x)) <= x && (x > 0 ==> (x - Decode(Encode(x))) * LEAST < x)
  {
    hide Parts, Fits, Value, Decode;
    var (s, w) := Parts(x);
    if x == 0 {
      ZeroParts();
      DecodeParts(0, 0);
      ZeroValue();
    } else {
      PartsFit(x);
      FitsWord(x, s, w);
      DecodeParts(s, w);
      ValueClose(x, s, w);
    }
  }

  lemma ZeroValue()
    ensures Value(0, 0) == 0
  {
    SmallPowers();
  }

  /** Sign bit clear, and no shorter form: the codes that encoding produces. */
  ghost predicate Canonical(c: nat)
  {
    c == 0 ||
    (var s, w := c / B3, c % B3;
     s >= 1 && LEAST <= w < SIGN && (s < 3 ==> w % P(3 - s) == 0))
  }

  lemma CanonicalFits(s: nat, w: nat)
    requires s >= 1 && LEAST <= w < SIGN && (s < 3 ==> w % P(3 - s) == 0)
    ensures Value(s, w) > 0 && Fits(Value(s, w), s, w)
  {
    SmallPowers();
    hide P;
    if s > 3 {
      Split(s);
      var v := w * P(s - 3);
      assert v * B3 == w * (P(s - 3) * B3) == w * P(s);
      MulPositive(w, P(s - 3));
      MulStrict(w, w + 1, P(s), P(s));
    }
  }

  lemma PartsCanonical(x: nat)
    ensures Canonical(Encode(x))
  {
    hide Parts, Fits;
    var (s, w) := Parts(x);
    if x == 0 {
      ZeroParts();
    } else {
      PartsFit(x);
      FitsCanonical(x, s, w);
      SplitCode(s, w);
    }
  }

  lemma Exact(x: nat, w: nat, p: nat, r: nat)
    requires p >= 1 && p * r == B3 && w * p <= x * B3 < (w + 1) * p
    ensures w == x * r
  {
    assert x * B3 == (x * r) * p;
    Ordered(w, x * r, p);
    Ordered(x * r, w, p);
    assert (w + 1) * p == w * p + p;
  }

  lemma FitsCanonical(x: nat, s: nat, w: nat)
    requires Fits(x, s, w) && x > 0
    ensures s >= 1 && LEAST <= w < SIGN && (s < 3 ==> w % P(3 - s) == 0)
  {
    SmallPowers();
    hide P;
    if s == 0 { Exact(x, w, 1, B3); } else if s == 1 { Exact(x, w, 256, 0x1_0000); } else if s == 2 { Exact(x, w, 0x1_0000, 256); }
  }

  /** Re-encoding the decoded value is the identity exactly on canonical codes. */
  lemma ReencodeIff(c: nat)
    requires c / SIGN % 2 == 0
    ensures Decode(c) >= 0
    ensures Encode(Decode(c)) == c <==> Canonical(c)
  {
    hide Parts, Fits, Value, Canonical, Decode;
    var s, w := c / B3, c % B3;
    JoinCode(c);
    DecodeParts(s, w);
    if Canonical(c) {
      if c == 0 {
        ZeroValue();
        ZeroParts();
      } else {
        CanonicalSplit(c);
        CanonicalFits(s, w);
        PartsFit(Value(s, w));
        Unique(Value(s, w), s, w, Parts(Value(s, w)).0, Parts(Value(s, w)).1);
      }
    } else {
      PartsCanonical(Decode(c));
    }
  }

  lemma CanonicalSplit(c: nat)
    requires Canonical(c) && c != 0
    ensures var s, w := c / B3, c % B3; s >= 1 && LEAST <= w < SIGN && (s < 3 ==> w % P(3 - s) == 0)
  {}

  /** Encoding a non-negative number leaves the sign bit clear. */
  lemma EncodeUnsigned(x: nat)
    ensures Encode(x) / SIGN % 2 == 0
  {
    hide Parts, Fits;
    if x == 0 {
      ZeroParts();
    } else {
      PartsFit(x);
      FitsWord(x, Parts(x).0, Parts(x).1);
      SplitCode(Parts(x).0, Parts(x).1);
    }
  }

  /** Negative numbers are encoded as their absolute value with the sign bit, and decode to the negative value. */
  lemma EncodeNegative(x: int)
    requires x < 0
    ensures Decode(EncodeInt(x)) == -Decode(Encode(-x))
  {
    hide Parts, Fits, Value, Decode;
    PartsFit(-x);
    var (s, w) := Parts(-x);
    FitsWord(-x, s, w);
    DecodeParts(s, w);
  }

  // ---- what encoding keeps is ordered, too ----

  lemma ValueMono(x: nat, s: nat, w: nat, y: nat, t: nat, v: nat)
    requires Fits(x, s, w) && Fits(y, t, v) && x <= y
    ensures Value(s, w) <= Value(t, v)
  {
    SizeMono(x, s, w, y, t, v);
    ValueOf(x, s, w);
    ValueOf(y, t, v);
    hide P, Value;
    if s == t {
      WordMono(x, y, s, w, v);
      MulMono(w, v, P(s), P(s));
    } else {
      NextP(s);
      PMono(s + 1, t);
      MulMono(w, SIGN, P(s), P(s));
      MulMono(LEAST, v, P(s + 1), P(t));
    }
  }

  /** A larger number never decodes to a smaller one. */
  lemma DecodeMonotone(x: nat, y: nat)
    requires x <= y
    ensures Decode(Encode(x)) <= Decode(Encode(y))
  {
    EncodeClose(x);
    EncodeClose(y);
    hide Parts, Fits, Value, Decode;
    if x > 0 {
      PartsFit(x);
      PartsFit(y);
      var (s, w) := Parts(x);
      var (t, v) := Parts(y);
      FitsWord(x, s, w);
      FitsWord(y, t, v);
      DecodeParts(s, w);
      DecodeParts(t, v);
      ValueMono(x, s, w, y, t, v);
    }
  }

  // ---- known codes ----

  lemma Sizes(x: nat)
    ensures 0 < x < 0x100 ==> NumBytes(x) == 1
    ensures 0x100 <= x < 0x1_0000 ==> NumBytes(x) == 2
    ensures 0x1_0000 <= x < 0x100_0000 ==> NumBytes(x) == 3
    ensures 0x100_0000 <= x < 0x1_0000_0000 ==> NumBytes(x) == 4
  {
    var a, b, c := x / 0x100, x / 0x1_0000, x / 0x100_0000;
    assert NumBytes(0) == 0;
    assert NumBytes(x) == if x == 0 then 0 else 1 + NumBytes(a);
    assert NumBytes(a) == if a == 0 then 0 else 1 + NumBytes(b);
    assert NumBytes(b) == if b == 0 then 0 else 1 + NumBytes(c);
    if 0 < c < 0x100 { assert NumBytes(c) == 1 + NumBytes(c / 256); }
  }

  /** Some codes and the numbers they stand for. */
  lemma KnownCodes()
    ensures Decode(0x0112_3456) == 0x12 && Encode(0x12) == 0x0112_0000
    ensures Decode(0x0212_3456) == 0x1234 && Encode(0x1234) == 0x0212_3400
    ensures Decode(0x0312_3456) == 0x12_3456 && Encode(0x12_3456) == 0x0312_3456
    ensures Decode(0x0412_3456) == 0x1234_5600 && Encode(0x1234_5600) == 0x0412_3456
    ensures Decode(0x0500_9234) == 0x9234_0000 && Encode(0x9234_0000) == 0x0500_9234
    ensures Decode(0x01FE_DCBA) == -0x7E && EncodeInt(-0x7E) == 0x01FE_0000
    ensures Encode(0x80) == 0x0200_8000 && Decode(0x0492_3456) == -0x1234_5600 && Decode(0) == Encode(0) == 0
  {
    SmallPowers();
    Sizes(0x12);
    Sizes(0x1234);
    Sizes(0x12_3456);
    Sizes(0x1234_5600);
    Sizes(0x9234_0000);
    Sizes(0x7E);
    Sizes(0x80);
    ZeroParts();
    hide P, NumBytes;
  }
}
