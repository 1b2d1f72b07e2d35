/** Variable-length integers and the compressed amounts of stored outputs. */
module Amounts {
  import opened Basics
  import opened Numerals

  // ---- VARINT ----

  /** Base 128, most significant first, one subtracted from all but the last digit; `flag` is the
      continuation bit of the last byte. */
  function VarBytes(n: nat, flag: Byte): (r: seq<Byte>)
    requires flag == 0 || flag == 128
    ensures |r| > 0
    decreases n
  {
    if n <= 0x7F then [n + flag] else VarBytes(n / 128 - 1, 128) + [n % 128 + flag]
  }

  function VarInt(n: nat): seq<Byte> { VarBytes(n, 0) }

  /** What is left of a signed number: a negative one is written as its last seven bits. */
  function Wrap(n: int): nat { if n < 0 then n % 128 else n }

  function ReadVar(s: seq<Byte>, acc: nat): Option<(nat, seq<Byte>)>
    decreases |s|
  {
    if s == [] then None
    else
      var n := acc * 128 + s[0] % 128;
      if s[0] >= 128 then ReadVar(s[1..], n + 1) else Some((n, s[1..]))
  }

  /** The bytes that leave the reader's accumulator at `acc`. */
  function Before(acc: nat): seq<Byte> { if acc == 0 then [] else VarBytes(acc - 1, 128) }

  lemma VarSplit(n: nat, flag: Byte)
    requires flag == 0 || flag == 128
    ensures VarBytes(n, flag) == Before(n / 128) + [n % 128 + flag]
  {
    if n <= 0x7F { assert Before(n / 128) == []; }
  }

  lemma ReadStep(b: Byte, rest: seq<Byte>, acc: nat)
    ensures ReadVar([b] + rest, acc) ==
            if b >= 128 then ReadVar(rest, acc * 128 + b % 128 + 1) else Some((acc * 128 + b % 128, rest))
  {
    assert ([b] + rest)[1..] == rest;
  }

  lemma {:induction false} ReadBefore(acc: nat, rest: seq<Byte>)
    ensures ReadVar(Before(acc) + rest, 0) == ReadVar(rest, acc)
    decreases acc
  {
    if acc == 0 {
      assert Before(acc) + rest == rest;
    } else {
      var n := acc - 1;
      assert Before(acc) == VarBytes(n, 128);
      hide ReadVar, VarBytes, Before;
      var b: Byte := n % 128 + 128;
      VarSplit(n, 128);
      assert Before(n / 128) + [b] + rest == Before(n / 128) + ([b] + rest);
      ReadBefore(n / 128, [b] + rest);
      ReadStep(b, rest, n / 128);
    }
  }

  /** Every number reads back, whatever follows it. */
  lemma VarRoundTrip(n: nat, rest: seq<Byte>)
    ensures ReadVar(VarInt(n) + rest, 0) == Some((n, rest))
  {
    hide ReadVar, VarBytes, Before;
    var b: Byte := n % 128;
    VarSplit(n, 0);
    assert Before(n / 128) + [b] + rest == Before(n / 128) + ([b] + rest);
    ReadBefore(n / 128, [b] + rest);
    ReadStep(b, rest, n / 128);
  }

  lemma BeforeStep(acc: nat, b: Byte)
    requires b >= 128
    ensures Before(acc) + [b] == Before(acc * 128 + b % 128 + 1)
  {
    var n := acc * 128 + b % 128;
    VarSplit(n, 128);
    hide VarBytes;
    assert Before(n + 1) == VarBytes(n, 128);
  }

  /** Every number has exactly one encoding: what was read is what would be written. */
  lemma {:induction false} VarUnique(s: seq<Byte>, acc: nat)
    requires ReadVar(s, acc).Some?
    ensures var (n, rest) := ReadVar(s, acc).value; Before(acc) + s == VarInt(n) + rest
    decreases |s|
  {
    assert s != [];
    hide ReadVar, VarBytes, Before;
    var b, t := s[0], s[1..];
    assert s == [b] + t;
    assert Before(acc) + s == Before(acc) + [b] + t;
    ReadStep(b, t, acc);
    if b >= 128 {
      BeforeStep(acc, b);
      VarUnique(t, acc * 128 + b % 128 + 1);
    } else {
      VarSplit(acc * 128 + b, 0);
    }
  }

  /** The digits of a number in the order they are found, from the last to the first. */
  method CollectDigits(n: int) returns (tmp: seq<Byte>)
    ensures Reversed(tmp) == VarInt(Wrap(n))
  {
    hide VarBytes, Before;
    var m: int := n;
    tmp := [];
    var flag: Byte := 0;
    assert VarBytes(Wrap(n), 0) + Reversed(tmp) == VarBytes(Wrap(n), 0);
    while m > 0x7F
      invariant flag == if |tmp| == 0 then 0 else 128
      invariant m < 0 ==> m == n && tmp == []
      invariant VarInt(Wrap(n)) == VarBytes(Wrap(m), flag) + Reversed(tmp)
      decreases m
    {
      DigitStep(m, flag, tmp);
      tmp := tmp + [m % 128 + flag];
      m := m / 128 - 1;
      flag := 128;
    }
    LastDigitStep(Wrap(m), flag, tmp);
    tmp := tmp + [m % 128 + flag];
  }

  lemma DigitStep(m: nat, flag: Byte, tmp: seq<Byte>)
    requires m > 0x7F && (flag == 0 || flag == 128)
    ensures VarBytes(m, flag) + Reversed(tmp) == VarBytes(m / 128 - 1, 128) + Reversed(tmp + [m % 128 + flag])
  {
    hide VarBytes, Before;
    VarSplit(m, flag);
    BeforeIs(m / 128);
    ReversedSnoc(tmp, m % 128 + flag);
  }

  lemma LastDigitStep(m: nat, flag: Byte, tmp: seq<Byte>)
    requires m <= 0x7F && (flag == 0 || flag == 128)
    ensures VarBytes(m, flag) + Reversed(tmp) == Reversed(tmp + [m + flag])
  {
    ReversedSnoc(tmp, m + flag);
  }

  /** The writer: digits are collected from the last to the first and emitted in reverse. */
  method WriteVarInt(n: int) returns (r: seq<Byte>)
    ensures r == VarInt(Wrap(n))
  {
    hide VarInt, Wrap;
    var tmp := CollectDigits(n);
    r := [];
    var k := |tmp|;
    while k > 0
      invariant 0 <= k <= |tmp| && |r| == |tmp| - k
      invariant forall i | 0 <= i < |r| :: r[i] == tmp[|tmp| - 1 - i]
    {
      k := k - 1;
      r := r + [tmp[k]];
    }
    assert r == Reversed(tmp);
  }

  lemma BeforeIs(acc: nat)
    ensures Before(acc) == if acc == 0 then [] else VarBytes(acc - 1, 128)
  {}

  /** The reader, on what is left of the stream. */
  method ReadVarInt(s: seq<Byte>) returns (r: Option<(nat, seq<Byte>)>)
    ensures r == ReadVar(s, 0)
  {
    var n: nat := 0;
    var k: nat := 0;
    assert s[0..] == s;
    while k < |s|
      invariant k <= |s| && ReadVar(s, 0) == ReadVar(s[k..], n)
    {
      assert s[k..][1..] == s[k + 1..];
      n := n * 128 + s[k] % 128;
      if s[k] < 128 { return Some((n, s[k + 1..])); }
      n := n + 1;
      k := k + 1;
    }
    return None;
  }

  // ---- amounts ----

  /** `n` without its trailing zeros, at most `room` of them, and how many were dropped. */
  function DropZeros(n: nat, room: nat): (r: (nat, nat))
    requires n > 0
    ensures r.1 <= room && r.0 > 0 && (r.1 < room ==> r.0 % 10 != 0)
    ensures r.0 * Pow(10, r.1) == n
    decreases room
  {
    if n % 10 == 0 && room > 0 then
      var r := DropZeros(n / 10, room - 1);
      PowSucc(10, r.1);
      Rearrange(r.0, Pow(10, r.1), n);
      (r.0, r.1 + 1)
    else (n, 0)
  }

  lemma Rearrange(m: nat, p: nat, n: nat)
    requires n % 10 == 0 && m * p == n / 10
    ensures m * (10 * p) == n
  {
    assert m * (10 * p) == 10 * (m * p);
  }

  function Compress(n: nat): nat
  {
    if n == 0 then 0
    else
      var (m, e) := DropZeros(n, 9);
      if e < 9 then 1 + (m / 10 * 9 + m % 10 - 1) * 10 + e else 1 + (m - 1) * 10 + 9
  }

  function Decompress(x: nat): nat
  {
    if x == 0 then 0
    else
      var e := (x - 1) % 10;
      var y := (x - 1) / 10;
      var m := if e < 9 then y / 9 * 10 + (y % 9 + 1) else y + 1;
      m * Pow(10, e)
  }

  lemma TenTimes(m: nat, p: nat)
    ensures m * (10 * p) == 10 * (m * p)
  {}

  lemma NoPower(m: nat)
    ensures m * Pow(10, 0) == m
  {}

  /** Stripping is undone by multiplying: zeros put back are found again. */
  lemma {:induction false} DropZerosOf(m: nat, e: nat, room: nat)
    requires m > 0 && e <= room && (e < room ==> m % 10 != 0)
    ensures m * Pow(10, e) > 0 && DropZeros(m * Pow(10, e), room) == (m, e)
    decreases room
  {
    hide Pow;
    if e > 0 {
      var p := Pow(10, e - 1);
      PowSucc(10, e - 1);
      DropZerosOf(m, e - 1, room - 1);
      TenTimes(m, p);
    } else {
      NoPower(m);
    }
  }

  lemma CodeDigits(y: nat, e: nat)
    requires e <= 9
    ensures (1 + y * 10 + e - 1) / 10 == y && (1 + y * 10 + e - 1) % 10 == e
  {}

  lemma NineDigits(q: nat, d: nat)
    requires 1 <= d <= 9
    ensures (q * 9 + d - 1) / 9 == q && (q * 9 + d - 1) % 9 == d - 1
  {}

  lemma AmountRoundTrip(n: nat)
    ensures Decompress(Compress(n)) == n
  {
    hide Pow, DropZeros;
    if n > 0 {
      var (m, e) := DropZeros(n, 9);
      if e < 9 {
        var y := m / 10 * 9 + m % 10 - 1;
        CodeDigits(y, e);
        NineDigits(m / 10, m % 10);
      } else {
        CodeDigits(m - 1, 9);
      }
    }
  }

  lemma LastDigit(y: nat)
    ensures var m := y / 9 * 10 + (y % 9 + 1); m % 10 == y % 9 + 1 && m / 10 == y / 9
  {}

  /** The code is onto: every code word is the code of the amount it stands for. */
  lemma CodeRoundTrip(x: nat)
    ensures Compress(Decompress(x)) == x
  {
    hide Pow, DropZeros;
    if x > 0 {
      var e := (x - 1) % 10;
      var y := (x - 1) / 10;
      var m := if e < 9 then y / 9 * 10 + (y % 9 + 1) else y + 1;
      LastDigit(y);
      DropZerosOf(m, e, 9);
    }
  }

  /** No overflow of 64-bit arithmetic for amounts up to 2^60. */
  lemma CompressFits(n: nat)
    requires n <= 0x1000_0000_0000_0000
    ensures Compress(n) < 0x1_0000_0000_0000_0000
  {
    if n > 0 {
      var (m, e) := DropZeros(n, 9);
      PowPositive(10, e);
      MulMono(m, m, 1, Pow(10, e));
    }
  }

  lemma DropStep(n: nat, room: nat)
    requires n > 0 && n % 10 == 0 && room > 0
    ensures n / 10 > 0 && DropZeros(n, room) == (DropZeros(n / 10, room - 1).0, DropZeros(n / 10, room - 1).1 + 1)
  {
    hide Pow;
  }

  lemma DropStop(n: nat, room: nat)
    requires n > 0 && (n % 10 != 0 || room == 0)
    ensures DropZeros(n, room) == (n, 0)
  {}

  /** The encoder's loop. */
  method CompressAmount(amount: nat) returns (x: nat)
    ensures x == Compress(amount)
  {
    hide Pow, DropZeros;
    if amount == 0 { return 0; }
    var n := amount;
    var e: nat := 0;
    while n % 10 == 0 && e < 9
      invariant n > 0 && e <= 9 && DropZeros(amount, 9) == (DropZeros(n, 9 - e).0, DropZeros(n, 9 - e).1 + e)
      decreases 9 - e
    {
      DropStep(n, 9 - e);
      n := n / 10;
      e := e + 1;
    }
    DropStop(n, 9 - e);
    if e < 9 {
      var d := n % 10;
      assert 1 <= d <= 9;
      n := n / 10;
      x := 1 + (n * 9 + d - 1) * 10 + e;
    } else {
      x := 1 + (n - 1) * 10 + 9;
    }
  }

  method DecompressAmount(code: nat) returns (n: nat)
    ensures n == Decompress(code)
  {
    hide Pow;
    if code == 0 { return 0; }
    var x := code - 1;
    var e := x % 10;
    x := x / 10;
    if e < 9 {
      var d := x % 9 + 1;
      x := x / 9;
      n := x * 10 + d;
    } else {
      n := x + 1;
    }
    ghost var m := n;
    ghost var e0 := e;
    NoPower(m);
    while e > 0
      invariant 0 <= e <= e0 && n == m * Pow(10, e0 - e)
    {
      PowSucc(10, e0 - e);
      TenTimes(m, Pow(10, e0 - e));
      n := n * 10;
      e := e - 1;
    }
  }
}
