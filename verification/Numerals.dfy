/** Powers and positional numerals, most significant digit first. */
module Numerals {
  function Pow(b: nat, e: nat): nat
  {
    if e == 0 then 1 else b * Pow(b, e - 1)
  }

  lemma {:induction false} PowAdd(b: nat, m: nat, n: nat)
    ensures Pow(b, m + n) == Pow(b, m) * Pow(b, n)
  {
    if m > 0 {
      PowAdd(b, m - 1, n);
      MulAssoc(b, Pow(b, m - 1), Pow(b, n));
    }
  }

  lemma MulAssoc(a: nat, b: nat, c: nat)
    ensures a * (b * c) == a * b * c
  {}

  lemma {:induction false} PowMul(b: nat, m: nat, n: nat)
    ensures Pow(b, m * n) == Pow(Pow(b, m), n)
  {
    if n == 0 {
      assert m * n == 0;
    } else {
      PowMul(b, m, n - 1);
      assert m * n == m + m * (n - 1);
      PowAdd(b, m, m * (n - 1));
    }
  }

  lemma ScaleMono(a: int, b: int, p: int)
    requires a <= b && p >= 0
    ensures a * p <= b * p
  {}

  lemma MulMono(a: nat, b: nat, c: nat, d: nat)
    requires a <= b && c <= d
    ensures a * c <= b * d
  {
    ScaleMono(a, b, c);
    ScaleMono(c, d, b);
  }

  lemma MulPositive(a: nat, b: nat)
    requires a >= 1 && b >= 1
    ensures a * b >= 1
  {}

  lemma {:induction false} PowPositive(b: nat, e: nat)
    requires b >= 1
    ensures Pow(b, e) >= 1
  {
    if e > 0 {
      PowPositive(b, e - 1);
      MulPositive(b, Pow(b, e - 1));
    }
  }

  lemma {:induction false} PowMonoBase(a: nat, b: nat, e: nat)
    requires a <= b
    ensures Pow(a, e) <= Pow(b, e)
  {
    if e > 0 {
      PowMonoBase(a, b, e - 1);
      MulMono(a, b, Pow(a, e - 1), Pow(b, e - 1));
    }
  }

  lemma PowMonoExp(b: nat, m: nat, n: nat)
    requires b >= 1 && m <= n
    ensures Pow(b, m) <= Pow(b, n)
  {
    PowAdd(b, m, n - m);
    PowPositive(b, n - m);
    MulMono(Pow(b, m), Pow(b, m), 1, Pow(b, n - m));
  }

  lemma MulStrict(a: nat, b: nat, c: nat, d: nat)
    requires a < b && 1 <= c <= d
    ensures a * c < b * d
  {
    assert a * c < b * c && b * c <= b * d;
  }

  lemma {:induction false} PowStrict(a: nat, b: nat, e: nat)
    requires 1 <= a < b && e >= 1
    ensures Pow(a, e) < Pow(b, e)
  {
    if e == 1 {
      assert Pow(a, 1) == a * Pow(a, 0) && Pow(b, 1) == b * Pow(b, 0);
    } else {
      PowStrict(a, b, e - 1);
      PowPositive(a, e - 1);
      MulStrict(a, b, Pow(a, e - 1), Pow(b, e - 1));
    }
  }

  /** Roots are monotone. */
  lemma Root(x: nat, y: nat, e: nat)
    requires e >= 1 && 1 <= y && Pow(x, e) <= Pow(y, e)
    ensures x <= y
  {
    if x > y { PowStrict(y, x, e); }
  }

  lemma PowSwap(b: nat, m: nat, n: nat)
    ensures Pow(b, m * n) == Pow(Pow(b, n), m)
  {
    hide Pow;
    PowMul(b, n, m);
    assert n * m == m * n;
  }

  lemma CompareLeft(a: nat, b: nat, p: nat, q: nat, n: nat)
    requires Pow(a, p) <= Pow(b, q)
    ensures Pow(Pow(a, n), p) <= Pow(b, q * n)
  {
    hide Pow;
    PowMul(a, p, n);
    PowSwap(a, p, n);
    PowMonoBase(Pow(a, p), Pow(b, q), n);
    PowMul(b, q, n);
  }

  lemma CompareRight(b: nat, e: nat, p: nat, s: nat)
    requires b >= 1 && e <= p * s
    ensures Pow(b, e) <= Pow(Pow(b, s), p)
  {
    hide Pow;
    PowMonoExp(b, e, p * s);
    PowSwap(b, p, s);
  }

  /** If a^p <= b^q, then a^n <= b^s whenever q n <= p s. */
  lemma Compare(a: nat, b: nat, p: nat, q: nat, n: nat, s: nat)
    requires a >= 1 && b >= 1 && p >= 1 && Pow(a, p) <= Pow(b, q) && q * n <= p * s
    ensures Pow(a, n) <= Pow(b, s)
  {
    hide Pow;
    CompareLeft(a, b, p, q, n);
    CompareRight(b, q * n, p, s);
    PowPositive(b, s);
    Root(Pow(a, n), Pow(b, s), p);
  }

  // ---- numerals ----

  ghost predicate Digits(base: nat, d: seq<nat>) { forall i | 0 <= i < |d| :: d[i] < base }

  function Val(base: nat, d: seq<nat>): nat
  {
    if d == [] then 0 else Val(base, d[..|d| - 1]) * base + d[|d| - 1]
  }

  lemma ValSnoc(base: nat, d: seq<nat>, x: nat)
    ensures Val(base, d + [x]) == Val(base, d) * base + x
  {
    assert (d + [x])[..|d|] == d;
  }

  lemma Regroup(x: nat, p: nat, v: nat, b: nat, y: nat, q: nat)
    requires q == b * p
    ensures (x * p + v) * b + y == x * q + (v * b + y)
  {
    assert (x * p + v) * b == x * p * b + v * b;
    assert x * p * b == x * (p * b) == x * q;
  }

  lemma ValOne(base: nat, x: nat)
    ensures Val(base, [x]) == x * Pow(base, 0) + Val(base, [])
  {
    assert [] + [x] == [x];
    ValSnoc(base, [], x);
  }

  lemma PowSucc(b: nat, n: nat)
    ensures Pow(b, n + 1) == b * Pow(b, n)
  {}

  /** The weight of the most significant digit. */
  lemma {:induction false} ValCons(base: nat, x: nat, d: seq<nat>)
    ensures Val(base, [x] + d) == x * Pow(base, |d|) + Val(base, d)
  {
    hide Val, Pow;
    if d == [] {
      ValOne(base, x);
      assert [x] + d == [x];
    } else {
      var n := |d| - 1;
      ValCons(base, x, d[..n]);
      assert [x] + d == ([x] + d[..n]) + [d[n]] && d == d[..n] + [d[n]];
      ValSnoc(base, [x] + d[..n], d[n]);
      ValSnoc(base, d[..n], d[n]);
      PowSucc(base, n);
      Regroup(x, Pow(base, n), Val(base, d[..n]), base, d[n], Pow(base, |d|));
    }
  }

  lemma {:induction false} ValBound(base: nat, d: seq<nat>)
    requires base >= 1 && Digits(base, d)
    ensures Val(base, d) < Pow(base, |d|)
  {
    if d != [] {
      var n := |d| - 1;
      ValBound(base, d[..n]);
      BoundStep(Val(base, d[..n]), Pow(base, n), base, d[n]);
    }
  }

  lemma BoundStep(v: nat, p: nat, b: nat, x: nat)
    requires v < p && x < b
    ensures v * b + x < b * p
  {
    assert (v + 1) * b <= p * b;
  }

  /** The numeral of a number, without leading zeros. */
  function Numeral(base: nat, x: nat): (d: seq<nat>)
    requires base >= 2
    ensures Digits(base, d) && (d == [] || d[0] != 0)
  {
    if x == 0 then [] else
      var q := Numeral(base, x / base);
      assert x / base == 0 ==> x % base == x;
      assert q == [] <==> x / base == 0;
      q + [x % base]
  }

  lemma {:induction false} NumeralVal(base: nat, x: nat)
    requires base >= 2
    ensures Val(base, Numeral(base, x)) == x
  {
    if x != 0 {
      NumeralVal(base, x / base);
      DivMod(x, base);
      ValSnoc(base, Numeral(base, x / base), x % base);
    }
  }

  function Strip(d: seq<nat>): seq<nat> { if d != [] && d[0] == 0 then Strip(d[1..]) else d }

  lemma QuotRem(v: nat, b: nat, x: nat)
    requires x < b
    ensures (v * b + x) / b == v && (v * b + x) % b == x
  {
    DivUnique(v * b + x, b, v, x);
  }

  lemma DivUnique(n: nat, b: nat, q: nat, r: nat)
    requires r < b && n == q * b + r
    ensures n / b == q && n % b == r
  {
    var q2, r2 := n / b, n % b;
    assert q * b + r == q2 * b + r2;
    Ordered(q, q2, b);
    Ordered(q2, q, b);
  }

  lemma Ordered(p: nat, q: nat, b: nat)
    ensures p < q ==> p * b + b <= q * b
  {
    if p < q { MulMono(p + 1, q, b, b); }
  }

  lemma DivMod(x: nat, b: nat)
    requires b >= 1
    ensures x == (x / b) * b + x % b
  {}

  /** Numerals without leading zeros are unique. */
  lemma {:induction false} NumeralUnique(base: nat, d: seq<nat>)
    requires base >= 2 && Digits(base, d) && (d == [] || d[0] != 0)
    ensures Numeral(base, Val(base, d)) == d
  {
    if d != [] {
      var n := |d| - 1;
      var v := Val(base, d[..n]);
      NumeralUnique(base, d[..n]);
      QuotRem(v, base, d[n]);
      assert n > 0 ==> Numeral(base, v) != [];
      Nonzero(v, base, d[n]);
      assert d == d[..n] + [d[n]];
    }
  }

  lemma Nonzero(v: nat, b: nat, x: nat)
    requires b >= 2
    ensures v * b + x == 0 <==> v == 0 && x == 0
  {
    if v > 0 { assert v * b >= b; }
  }

  lemma {:induction false} StripVal(base: nat, d: seq<nat>)
    requires base >= 2 && Digits(base, d)
    ensures Numeral(base, Val(base, d)) == Strip(d)
  {
    if d != [] && d[0] == 0 {
      assert d == [0] + d[1..];
      ValCons(base, 0, d[1..]);
      StripVal(base, d[1..]);
    } else {
      NumeralUnique(base, d);
    }
  }
}
