/** Base58 and its checksummed form: conversion in fixed-size digit buffers, proved never to overflow and
    to be mutually inverse. */
module Base58 {
  import opened Numerals
  import opened Basics

  // ---- the alphabet "1..9A..HJ..NP..Za..km..z" ----

  function CharOf(d: nat): char
    requires d < 58
  {
    if d < 9 then (d + 49) as char
    else if d < 17 then (d - 9 + 65) as char
    else if d < 22 then (d - 17 + 74) as char
    else if d < 33 then (d - 22 + 80) as char
    else if d < 44 then (d - 33 + 97) as char
    else (d - 44 + 109) as char
  }

  /** The position of a character in the alphabet, or -1. */
  function DigitOf(c: char): (d: int)
    ensures -1 <= d < 58
  {
    var n := c as int;
    if 49 <= n <= 57 then n - 49
    else if 65 <= n <= 72 then n - 65 + 9
    else if 74 <= n <= 78 then n - 74 + 17
    else if 80 <= n <= 90 then n - 80 + 22
    else if 97 <= n <= 107 then n - 97 + 33
    else if 109 <= n <= 122 then n - 109 + 44
    else -1
  }

  lemma AlphabetInverse(c: char, d: nat)
    requires d < 58
    ensures DigitOf(CharOf(d)) == d && !IsSpace(CharOf(d))
    ensures DigitOf(c) >= 0 ==> CharOf(DigitOf(c)) == c && !IsSpace(c)
  {}

  predicate IsSpace(c: char) { c == ' ' || 9 <= c as int <= 13 }

  // ---- the buffers are large enough ----

  lemma Square(b: nat, n: nat, v: nat)
    requires Pow(b, n) == v
    ensures Pow(b, 2 * n) == v * v
  {
    PowAdd(b, n, n);
  }

  lemma Pow58()
    ensures Pow(58, 71) == 0xf1a10f76073f997e1af0b37f5c795ecf145633452837a5de3fa17ac74b86f60a0ebe5446f358940a4ca12a800000000000000000
  {
    hide Pow;
    FirstPower(58);
    Square(58, 1, 58);
    Square(58, 2, 0xd24);
    Square(58, 4, 0xacad10);
    Square(58, 8, 0x7479027ea100);
    Square(58, 16, 0x34fde3761da26b26e1410000);
    Square(58, 32, 0xaf820335d9b3d9cf58b911d87035677fb7f528100000000);
    PowAdd(58, 64, 4);
    PowAdd(58, 68, 2);
    PowAdd(58, 70, 1);
  }

  lemma FirstPower(b: nat)
    ensures Pow(b, 1) == b
  {
    assert Pow(b, 1) == b * Pow(b, 0);
  }

  lemma Pow58Small()
    ensures Pow(58, 11) == 0x15ac264554f032800
  {
    hide Pow;
    FirstPower(58);
    Square(58, 1, 58);
    Square(58, 2, 0xd24);
    Square(58, 4, 0xacad10);
    PowAdd(58, 8, 2);
    PowAdd(58, 10, 1);
  }

  lemma Pow256()
    ensures Pow(256, 8) == 0x10000000000000000 && Pow(256, 52) == 0x100000000000000000000000000000000000000000000000000000000000000000000000000000000000000000000000000000000
  {
    hide Pow;
    FirstPower(256);
    Square(256, 1, 256);
    Square(256, 2, 0x10000);
    Square(256, 4, 0x100000000);
    Square(256, 8, 0x10000000000000000);
    Square(256, 16, 0x100000000000000000000000000000000);
    PowAdd(256, 32, 16);
    PowAdd(256, 48, 4);
  }

  /** 138/100 base-58 digits for each byte, and one, are enough. */
  lemma EncodeFits(n: nat)
    ensures Pow(256, n) <= Pow(58, n * 138 / 100 + 1)
  {
    hide Pow;
    Pow58Small();
    Pow256();
    Compare(256, 58, 8, 11, n, n * 138 / 100 + 1);
  }

  /** 733/1000 bytes for each base-58 digit, and one, are enough. */
  lemma DecodeFits(n: nat)
    ensures Pow(58, n) <= Pow(256, n * 733 / 1000 + 1)
  {
    hide Pow;
    Pow58();
    Pow256();
    Compare(58, 256, 71, 52, n, n * 733 / 1000 + 1);
  }

  // ---- multiply and add, in place ----

  lemma StepAlgebra(base: nat, mult: nat, p: nat, x: nat, v: nat, carry: nat, w: nat, add: nat)
    requires base >= 1 && w + carry * p == mult * v + add
    ensures var c := carry + mult * x;
            (c % base) * p + w + (c / base) * (base * p) == mult * (x * p + v) + add
  {
    var c := carry + mult * x;
    DivMod(c, base);
    assert (c / base) * (base * p) == ((c / base) * base) * p;
    assert ((c / base) * base) * p + (c % base) * p == ((c / base) * base + c % base) * p;
    assert c * p == carry * p + mult * x * p;
    assert mult * (x * p + v) == mult * x * p + mult * v;
  }

  /** The inner loop of both directions: `b = b * mult + add`, from the last digit to the first. */
  method MulAdd(b: array<nat>, base: nat, mult: nat, add: nat) returns (carry: nat)
    requires base >= 2 && Digits(base, b[..])
    modifies b
    ensures Digits(base, b[..])
    ensures Val(base, b[..]) + carry * Pow(base, b.Length) == mult * Val(base, old(b[..])) + add
  {
    hide Val, Pow;
    ghost var was := b[..];
    carry := add;
    var i := b.Length;
    assert b[i..] == [] && was[i..] == [];
    NoDigits(base, mult, add);
    while i > 0
      invariant 0 <= i <= b.Length && Digits(base, b[..])
      invariant forall j | 0 <= j < i :: b[j] == was[j]
      invariant Val(base, b[i..]) + carry * Pow(base, b.Length - i) == mult * Val(base, was[i..]) + add
    {
      i := i - 1;
      ghost var p, w, v := Pow(base, b.Length - i - 1), b[i + 1..], was[i + 1..];
      StepAlgebra(base, mult, p, b[i], Val(base, v), carry, Val(base, w), add);
      assert was[i..] == [b[i]] + v;
      ValCons(base, b[i], v);
      carry := carry + mult * b[i];
      b[i] := carry % base;
      carry := carry / base;
      assert b[i..] == [b[i]] + w;
      ValCons(base, b[i], w);
      PowSucc(base, b.Length - i - 1);
    }
    assert b[0..] == b[..] && was[0..] == was;
  }

  lemma NoDigits(base: nat, mult: nat, add: nat)
    ensures Val(base, []) + add * Pow(base, 0) == mult * Val(base, []) + add
  {}

  /** No carry is left when the value fits. */
  lemma NoCarry(v: nat, carry: nat, p: nat, t: nat)
    requires v + carry * p == t < p
    ensures carry == 0 && v == t
  {
    Ordered(0, carry, p);
  }

  // ---- what the conversions compute ----

  function LeadingZeros(v: seq<nat>): (z: nat)
    ensures z <= |v| && (forall i | 0 <= i < z :: v[i] == 0) && (z < |v| ==> v[z] != 0)
  {
    if v != [] && v[0] == 0 then 1 + LeadingZeros(v[1..]) else 0
  }

  function Chars(d: seq<nat>): string
    requires Digits(58, d)
  {
    seq(|d|, i requires 0 <= i < |d| => CharOf(d[i]))
  }

  function Ones(n: nat): string { seq(n, _ => '1') }

  function ZeroDigits(n: nat): seq<nat> { seq(n, _ => 0) }

  /** One '1' for each leading zero byte, then the number in base 58. */
  function Enc(v: seq<Byte>): string
  {
    Ones(LeadingZeros(v)) + Chars(Numeral(58, Val(256, v)))
  }

  /** The length of the longest prefix of characters satisfying `p`. */
  function Span(p: char -> bool, s: string): (n: nat)
    ensures n <= |s| && (forall i | 0 <= i < n :: p(s[i])) && (n < |s| ==> !p(s[n]))
  {
    if s != [] && p(s[0]) then 1 + Span(p, s[1..]) else 0
  }

  function SkipSpaces(s: string): string { s[Span(IsSpace, s)..] }

  function IsOne(c: char): bool { c == '1' }
  function IsInk(c: char): bool { !IsSpace(c) }

  ghost predicate AllDigits(s: string) { forall i | 0 <= i < |s| :: DigitOf(s[i]) >= 0 }

  function Values(s: string): (d: seq<nat>)
    requires AllDigits(s)
    ensures Digits(58, d)
  {
    seq(|s|, i requires 0 <= i < |s| => DigitOf(s[i]) as nat)
  }

  /** Leading spaces skipped: a number of '1's, the characters up to a space, and what follows them. */
  datatype Parsed = Parsed(ones: nat, body: string, tail: string)

  function Parse(s: string): (p: Parsed)
    ensures p.body == [] || p.body[0] != '1'
  {
    var t := SkipSpaces(s);
    var z := Span(IsOne, t);
    var u := t[z..];
    var n := Span(IsInk, u);
    Parsed(z, u[..n], u[n..])
  }

  /** The whole string must be a number with nothing but spaces around it. */
  ghost function Dec(s: string): Option<seq<nat>>
  {
    var p := Parse(s);
    if AllDigits(p.body) && SkipSpaces(p.tail) == [] then Some(Bytes(p.ones, Values(p.body))) else None
  }

  function Bytes(z: nat, d: seq<nat>): (v: seq<nat>)
    ensures Digits(256, v)
  {
    ZeroDigits(z) + Numeral(256, Val(58, d))
  }

  // ---- the programs ----

  lemma ValPrefix(base: nat, v: seq<nat>, k: nat)
    requires k < |v|
    ensures Val(base, v[..k + 1]) == Val(base, v[..k]) * base + v[k]
  {
    assert v[..k + 1] == v[..k] + [v[k]];
    ValSnoc(base, v[..k], v[k]);
  }

  lemma PrefixBound(base: nat, v: seq<nat>, k: nat, limit: nat)
    requires base >= 1 && Digits(base, v) && k <= |v| && Pow(base, |v|) <= limit
    ensures Val(base, v[..k]) < limit
  {
    ValBound(base, v[..k]);
    PowMonoExp(base, k, |v|);
  }

  lemma ZeroVal(base: nat, n: nat)
    ensures Val(base, ZeroDigits(n)) == 0
  {
    if n > 0 {
      ZeroVal(base, n - 1);
      assert ZeroDigits(n) == ZeroDigits(n - 1) + [0];
      ValSnoc(base, ZeroDigits(n - 1), 0);
    }
  }

  /** Leading zeros do not change the value. */
  lemma SkipZeros(base: nat, v: seq<nat>)
    ensures Val(base, v) == Val(base, v[LeadingZeros(v)..])
  {
    if v != [] && v[0] == 0 {
      assert v == [0] + v[1..];
      ValCons(base, 0, v[1..]);
      SkipZeros(base, v[1..]);
      assert v[LeadingZeros(v)..] == v[1..][LeadingZeros(v[1..])..];
    } else {
      assert v[0..] == v;
    }
  }

  /** Convert the digits `v` from one base to another in a buffer of fixed size: the carry that the program
      asserts to be zero is zero. */
  method Convert(v: seq<nat>, base: nat, target: nat, size: nat) returns (r: seq<nat>)
    requires base >= 2 && target >= 2 && Digits(base, v) && Pow(base, |v|) <= Pow(target, size)
    ensures r == Numeral(target, Val(base, v))
  {
    hide Pow, Val, Numeral, Strip;
    var b := new nat[size](_ => 0);
    assert b[..] == ZeroDigits(size);
    ZeroVal(target, size);
    EmptyVal(base);
    var k: nat := 0;
    assert v[..0] == [];
    while k < |v|
      invariant k <= |v| && Digits(target, b[..]) && Val(target, b[..]) == Val(base, v[..k])
    {
      var carry := MulAdd(b, target, base, v[k]);
      ValPrefix(base, v, k);
      PrefixBound(base, v, k + 1, Pow(target, size));
      NoCarry(Val(target, b[..]), carry, Pow(target, size), Val(base, v[..k + 1]));
      assert carry == 0;
      k := k + 1;
    }
    assert v[..k] == v;
    var d := b[..];
    StripVal(target, d);
    var z: nat := 0;
    assert d[0..] == d;
    while z < |d| && d[z] == 0
      invariant z <= |d| && Strip(d[z..]) == Strip(d)
    {
      StripStep(d, z);
      z := z + 1;
    }
    StripDone(d, z);
    r := d[z..];
  }

  lemma EmptyVal(base: nat)
    ensures Val(base, []) == 0
  {}

  lemma StripStep(d: seq<nat>, z: nat)
    requires z < |d| && d[z] == 0
    ensures Strip(d[z..]) == Strip(d[z + 1..])
  {
    assert d[z..][1..] == d[z + 1..];
  }

  lemma StripDone(d: seq<nat>, z: nat)
    requires z <= |d| && (z < |d| ==> d[z] != 0)
    ensures Strip(d[z..]) == d[z..]
  {}

  method Encode(v: seq<Byte>) returns (s: string)
    ensures s == Enc(v)
  {
    hide Numeral, Val;
    var z := CountZeros(v);
    SkipZeros(256, v);
    EncodeFits(|v| - z);
    var w: seq<nat> := v[z..];
    var d := Convert(w, 256, 58, (|v| - z) * 138 / 100 + 1);
    s := Ones(z);
    var k: nat := 0;
    while k < |d|
      invariant k <= |d| && s == Ones(z) + Chars(d)[..k]
    {
      s := s + [CharOf(d[k])];
      k := k + 1;
    }
    assert Chars(d)[..k] == Chars(d);
  }

  method CountZeros(v: seq<nat>) returns (z: nat)
    ensures z == LeadingZeros(v)
  {
    z := 0;
    while z < |v| && v[z] == 0
      invariant z <= |v| && LeadingZeros(v) == z + LeadingZeros(v[z..])
    {
      assert v[z..][1..] == v[z + 1..];
      z := z + 1;
    }
  }

  method SpanOf(p: char -> bool, s: string) returns (n: nat)
    ensures n == Span(p, s)
  {
    n := 0;
    while n < |s| && p(s[n])
      invariant n <= |s| && Span(p, s) == n + Span(p, s[n..])
    {
      assert s[n..][1..] == s[n + 1..];
      n := n + 1;
    }
  }

  /** Look every character up; the first that is not in the alphabet ends it. */
  method DigitsOf(body: string) returns (ok: bool, digits: seq<nat>)
    ensures ok == AllDigits(body) && (ok ==> digits == Values(body))
  {
    hide DigitOf;
    digits := [];
    var k: nat := 0;
    while k < |body|
      invariant k <= |body| && |digits| == k
      invariant forall i | 0 <= i < k :: DigitOf(body[i]) >= 0 && digits[i] == DigitOf(body[i])
    {
      var d := DigitOf(body[k]);
      if d == -1 { return false, digits; }
      digits := digits + [d];
      k := k + 1;
    }
    ok := true;
  }

  lemma ParseSteps(s: string, a: nat, z: nat, n: nat, b: nat)
    requires a == Span(IsSpace, s) && z == Span(IsOne, s[a..]) && n == Span(IsInk, s[a..][z..]) && b == Span(IsSpace, s[a..][z..][n..])
    ensures Parse(s) == Parsed(z, s[a..][z..][..n], s[a..][z..][n..])
    ensures SkipSpaces(s[a..][z..][n..]) == [] <==> n + b == |s[a..][z..]|
  {
    hide Span;
  }

  method Decode(s: string) returns (r: Option<seq<nat>>)
    ensures r == Dec(s)
  {
    hide Numeral, Val, Span, Pow, AllDigits, Values, Parse, SkipSpaces;
    var a := SpanOf(IsSpace, s);
    var t := s[a..];
    var z := SpanOf(IsOne, t);
    var u := t[z..];
    var n := SpanOf(IsInk, u);
    var b := SpanOf(IsSpace, u[n..]);
    ParseSteps(s, a, z, n, b);
    var ok, digits := DigitsOf(u[..n]);
    if !ok { return None; }
    if n + b != |u| { return None; }
    ValuesLength(u[..n]);
    DecodeFits(|u|);
    PowMonoExp(58, n, |u|);
    var bytes := Convert(digits, 58, 256, |u| * 733 / 1000 + 1);
    r := Some(ZeroDigits(z) + bytes);
  }

  lemma ValuesLength(s: string)
    requires AllDigits(s)
    ensures |Values(s)| == |s|
  {}

  // ---- which strings are numbers ----

  const ALPHABET: string := "123456789" + "ABCDEFGH" + "JKLMN" + "PQRSTUVWXYZ" + "abcdefghijk" + "mnopqrstuvwxyz"

  /** Digit d is written as character d of the alphabet. */
  lemma AlphabetAt(d: nat)
    requires d < 58
    ensures |ALPHABET| == 58 && CharOf(d) == ALPHABET[d]
  {
    assert d < 9 ==> "123456789"[d] == (d + 49) as char;
    assert 9 <= d < 17 ==> "ABCDEFGH"[d - 9] == (d + 56) as char;
    assert 17 <= d < 22 ==> "JKLMN"[d - 17] == (d + 57) as char;
    assert 22 <= d < 33 ==> "PQRSTUVWXYZ"[d - 22] == (d + 58) as char;
    assert 33 <= d < 44 ==> "abcdefghijk"[d - 33] == (d + 64) as char;
    assert d >= 44 ==> "mnopqrstuvwxyz"[d - 44] == (d + 65) as char;
  }

  /** The characters of the alphabet are the digits, and no other character is one. */
  lemma AlphabetIs(c: char)
    ensures DigitOf(c) >= 0 <==> c in ALPHABET
  {
    hide *;
    AlphabetInverse(c, 0);
    AlphabetAt(0);
    if DigitOf(c) >= 0 {
      AlphabetAt(DigitOf(c));
    }
    if c in ALPHABET {
      var d :| 0 <= d < |ALPHABET| && ALPHABET[d] == c;
      AlphabetAt(d);
      AlphabetInverse(c, d);
    }
  }

  /** Space, tab, line feed, vertical tab, form feed and carriage return. */
  predicate Blank(c: char) { c as int in {32, 9, 10, 11, 12, 13} }

  lemma BlankIs(c: char)
    ensures Blank(c) <==> IsSpace(c)
  {}

  /** Blanks, characters of the alphabet, and blanks. */
  ghost predicate IsNumber(s: string, a: nat, b: nat)
  {
    a <= b <= |s| && (forall i | 0 <= i < a || b <= i < |s| :: Blank(s[i])) && forall i | a <= i < b :: s[i] in ALPHABET
  }

  /** Where the parts of a string stand: e is where the characters end. */
  ghost predicate PartsAt(s: string, p: Parsed, l: nat, e: nat)
  {
    && l + p.ones <= e <= |s| && p.body == s[l + p.ones..e] && p.tail == s[e..]
    && (forall i | 0 <= i < l :: IsSpace(s[i])) && (l < |s| ==> !IsSpace(s[l]))
    && (forall i | l <= i < l + p.ones :: s[i] == '1') && (forall i | l + p.ones <= i < e :: !IsSpace(s[i]))
    && (e < |s| ==> IsSpace(s[e]))
  }

  lemma SpanFrom(p: char -> bool, s: string, k: nat)
    requires k <= |s|
    ensures var n := Span(p, s[k..]);
            && k + n <= |s| && (forall i | k <= i < k + n :: p(s[i])) && (k + n < |s| ==> !p(s[k + n]))
            && s[k..][n..] == s[k + n..] && s[k..][..n] == s[k..k + n]
  {
    hide *;
    var n := Span(p, s[k..]);
    assert forall i | k <= i < k + n :: s[i] == s[k..][i - k];
    assert k + n < |s| ==> s[k + n] == s[k..][n];
  }

  lemma SpacesFrom(s: string) returns (l: nat, t: string)
    ensures t == SkipSpaces(s) && l <= |s| && t == s[l..]
    ensures (forall i | 0 <= i < l :: IsSpace(s[i])) && (l < |s| ==> !IsSpace(s[l]))
  {
    hide Span, IsSpace;
    l, t := Span(IsSpace, s), SkipSpaces(s);
  }

  lemma OnesFrom(s: string, t: string, l: nat) returns (e: nat, u: string)
    requires l <= |s| && t == s[l..]
    ensures l <= e <= |s| && (forall i | l <= i < e :: s[i] == '1')
    ensures e - l == Span(IsOne, t) && u == t[e - l..] == s[e..]
  {
    hide Span;
    SpanFrom(IsOne, s, l);
    e, u := l + Span(IsOne, t), t[Span(IsOne, t)..];
  }

  lemma InkFrom(s: string, u: string, l: nat) returns (e: nat)
    requires l <= |s| && u == s[l..]
    ensures l <= e <= |s| && (forall i | l <= i < e :: !IsSpace(s[i])) && (e < |s| ==> IsSpace(s[e]))
    ensures e - l == Span(IsInk, u) && u[e - l..] == s[e..] && u[..e - l] == s[l..e]
  {
    hide Span, IsSpace;
    SpanFrom(IsInk, s, l);
    e := l + Span(IsInk, u);
  }

  lemma ParseIs(s: string, t: string, u: string, z: nat, n: nat)
    requires t == SkipSpaces(s) && z == Span(IsOne, t) && u == t[z..] && n == Span(IsInk, u)
    ensures Parse(s) == Parsed(z, u[..n], u[n..])
  {
    hide Span, SkipSpaces, IsSpace, IsOne, IsInk;
  }

  lemma Parts(s: string) returns (l: nat, e: nat)
    ensures PartsAt(s, Parse(s), l, e)
  {
    hide *;
    var t, u: string;
    l, t := SpacesFrom(s);
    var m;
    m, u := OnesFrom(s, t, l);
    e := InkFrom(s, u, m);
    ParseIs(s, t, u, m - l, e - m);
    PartsStand(s, Parse(s), l, e);
  }

  lemma PartsStand(s: string, p: Parsed, l: nat, e: nat)
    requires l + p.ones <= e <= |s| && p.body == s[l + p.ones..e] && p.tail == s[e..]
    requires (forall i | 0 <= i < l :: IsSpace(s[i])) && (l < |s| ==> !IsSpace(s[l]))
    requires (forall i | l <= i < l + p.ones :: s[i] == '1') && (forall i | l + p.ones <= i < e :: !IsSpace(s[i]))
    requires e < |s| ==> IsSpace(s[e])
    ensures PartsAt(s, p, l, e)
  {}

  lemma AllBlank(s: string)
    ensures SkipSpaces(s) == [] <==> forall i | 0 <= i < |s| :: IsSpace(s[i])
  {}

  lemma NumberCharacter(c: char)
    ensures DigitOf(c) >= 0 <==> c in ALPHABET
    ensures Blank(c) <==> IsSpace(c)
    ensures c in ALPHABET ==> !IsSpace(c)
    ensures '1' in ALPHABET
  {
    AlphabetIs(c);
    AlphabetInverse(c, 0);
    BlankIs(c);
    AlphabetIs('1');
    assert DigitOf('1') == 0;
    hide *;
  }

  lemma ParseOfNumber(s: string, a: nat, b: nat)
    requires IsNumber(s, a, b)
    ensures Dec(s).Some?
  {
    hide Span, IsSpace, Blank, DigitOf, Parse, SkipSpaces, Numeral, Val, Bytes, ALPHABET;
    var p := Parse(s);
    var l, e := Parts(s);
    forall i | 0 <= i < |p.body| ensures DigitOf(p.body[i]) >= 0
    {
      assert p.body[i] == s[l + p.ones + i];
      NumberCharacter(p.body[i]);
    }
    if e < |s| {
      NumberCharacter(s[e]);
      NumberCharacter(s[l]);
      assert e >= b;
    }
    forall i | 0 <= i < |p.tail| ensures IsSpace(p.tail[i])
    {
      assert p.tail[i] == s[e + i];
      NumberCharacter(s[e + i]);
    }
    AllBlank(p.tail);
  }

  lemma NumberOfParse(s: string)
    requires Dec(s).Some?
    ensures exists a: nat, b: nat :: IsNumber(s, a, b)
  {
    hide Span, IsSpace, Blank, DigitOf, Parse, SkipSpaces, Numeral, Val, Bytes, ALPHABET;
    var p := Parse(s);
    var l, e := Parts(s);
    AllBlank(p.tail);
    forall i | l <= i < e ensures s[i] in ALPHABET
    {
      NumberCharacter(s[i]);
      assert i >= l + p.ones ==> DigitOf(p.body[i - l - p.ones]) >= 0;
    }
    forall i | 0 <= i < l || e <= i < |s| ensures Blank(s[i])
    {
      NumberCharacter(s[i]);
      assert i >= e ==> IsSpace(p.tail[i - e]);
    }
    assert IsNumber(s, l, e);
  }

  /** Main result on refusals: a string decodes exactly when it consists of blanks, characters of the alphabet, and
      blanks. */
  lemma DecodesIff(s: string)
    ensures Dec(s).Some? <==> exists a: nat, b: nat :: IsNumber(s, a, b)
  {
    hide Dec, IsNumber;
    if Dec(s).Some? { NumberOfParse(s); }
    if a: nat, b: nat :| IsNumber(s, a, b) { ParseOfNumber(s, a, b); }
  }

  /** Two known encodings. */
  lemma KnownNumbers()
    ensures Enc([0x61]) == "2g" && Enc([0, 0]) == "11"
  {}

  // ---- round trips ----

  lemma {:induction false} SpanPrefix(p: char -> bool, a: string, b: string)
    requires (forall i | 0 <= i < |a| :: p(a[i])) && (b == [] || !p(b[0]))
    ensures Span(p, a + b) == |a|
  {
    if a != [] {
      assert (a + b)[1..] == a[1..] + b;
      SpanPrefix(p, a[1..], b);
    } else {
      assert a + b == b;
    }
  }

  ghost predicate Plain(d: seq<nat>) { Digits(58, d) && (d == [] || d[0] != 0) }

  lemma CharsFacts(d: seq<nat>)
    requires Plain(d)
    ensures AllDigits(Chars(d)) && Values(Chars(d)) == d && (d == [] || Chars(d)[0] != '1')
    ensures forall i | 0 <= i < |d| :: !IsSpace(Chars(d)[i])
  {
    var c := Chars(d);
    forall i | 0 <= i < |c| ensures DigitOf(c[i]) == d[i] && !IsSpace(c[i])
    {
      AlphabetInverse(c[i], d[i]);
    }
    NotOne(d);
  }

  lemma ParseOf(z: nat, c: string)
    requires (c == [] || c[0] != '1') && forall i | 0 <= i < |c| :: !IsSpace(c[i])
    ensures Parse(Ones(z) + c) == Parsed(z, c, [])
  {
    var s := Ones(z) + c;
    assert !IsSpace('1');
    hide Span, IsSpace;
    SpanPrefix(IsSpace, [], s);
    assert [] + s == s && s[0..] == s;
    SpanPrefix(IsOne, Ones(z), c);
    assert s[z..] == c;
    SpanPrefix(IsInk, c, []);
    assert c + [] == c && c[..|c|] == c && c[|c|..] == [];
  }

  /** How a string of '1's followed by base-58 digits without leading zeros is read. */
  lemma DecOf(z: nat, d: seq<nat>)
    requires Plain(d)
    ensures Dec(Ones(z) + Chars(d)) == Some(Bytes(z, d))
  {
    hide Bytes, Parse, IsSpace, AllDigits, Values, Span;
    CharsFacts(d);
    ParseOf(z, Chars(d));
  }

  lemma NotOne(d: seq<nat>)
    requires Plain(d)
    ensures d == [] || Chars(d)[0] != '1'
  {}

  lemma ZerosThen(z: nat, d: seq<nat>)
    requires d == [] || d[0] != 0
    ensures LeadingZeros(ZeroDigits(z) + d) == z
  {
    if z > 0 {
      assert (ZeroDigits(z) + d)[1..] == ZeroDigits(z - 1) + d;
      ZerosThen(z - 1, d);
    } else {
      assert ZeroDigits(z) + d == d;
    }
  }

  /** Decoding an encoding returns every byte vector exactly. */
  lemma EncodeThenDecode(v: seq<Byte>)
    ensures Dec(Enc(v)) == Some(v)
  {
    hide Numeral, Val, Dec, Chars;
    var z := LeadingZeros(v);
    DecOf(z, Numeral(58, Val(256, v)));
    NumeralVal(58, Val(256, v));
    SkipZeros(256, v);
    NumeralUnique(256, v[z..]);
    assert v == ZeroDigits(z) + v[z..];
  }

  /** A string without surrounding spaces. */
  function Trimmed(s: string): string { Ones(Parse(s).ones) + Parse(s).body }

  /** The trimmed string is the part of the input between the leading spaces and the next one. */
  lemma TrimmedIsPart(s: string)
    ensures Trimmed(s) <= SkipSpaces(s)
    ensures forall i | 0 <= i < |Trimmed(s)| :: !IsSpace(Trimmed(s)[i])
  {
    assert !IsSpace('1');
    hide IsSpace, Span;
    var t := SkipSpaces(s);
    var z := Span(IsOne, t);
    assert t[..z] == Ones(z);
  }

  /** Encoding what was decoded returns the string, but for the spaces around it. */
  lemma DecodeThenEncode(s: string)
    requires Dec(s).Some?
    ensures Digits(256, Dec(s).value)
    ensures var v := AsBytes(Dec(s).value); Enc(v) == Trimmed(s)
  {
    hide Numeral, Val, Parse, AllDigits, Values, Chars, SkipSpaces;
    var p := Parse(s);
    var d := Values(p.body);
    var b := Numeral(256, Val(58, d));
    ZerosThen(p.ones, b);
    SkipZeros(256, ZeroDigits(p.ones) + b);
    assert (ZeroDigits(p.ones) + b)[p.ones..] == b;
    NumeralVal(256, Val(58, d));
    NoLeadingOne(p.body);
    NumeralUnique(58, d);
    CharsOfValues(p.body);
  }

  function AsBytes(d: seq<nat>): (v: seq<Byte>)
    requires Digits(256, d)
    ensures v == d
  {
    seq(|d|, i requires 0 <= i < |d| => d[i] as Byte)
  }

  lemma NoLeadingOne(u: string)
    requires AllDigits(u) && (u == [] || u[0] != '1')
    ensures Values(u) == [] || Values(u)[0] != 0
  {
    if u != [] { AlphabetInverse(u[0], 0); }
  }

  lemma CharsOfValues(s: string)
    requires AllDigits(s)
    ensures Chars(Values(s)) == s
  {
    forall i | 0 <= i < |s| ensures CharOf(DigitOf(s[i])) == s[i] { AlphabetInverse(s[i], 0); }
  }

  /** A string of base-58 characters has no spaces to trim. */
  lemma TrimmedPlain(s: string)
    requires AllDigits(s)
    ensures Trimmed(s) == s && Dec(s).Some?
  {
    hide Bytes, Span;
    forall i | 0 <= i < |s| ensures !IsSpace(s[i]) { AlphabetInverse(s[i], 0); }
    hide IsSpace, DigitOf;
    var z := Span(IsOne, s);
    assert s == Ones(z) + s[z..];
    ParseOf(z, s[z..]);
  }

  /** Encoding the decoding of a valid unspaced string returns it. */
  lemma ValidStringRoundTrip(s: string)
    requires AllDigits(s)
    ensures Dec(s).Some? && Digits(256, Dec(s).value) && Enc(AsBytes(Dec(s).value)) == s
  {
    hide Dec, Enc, Trimmed, AllDigits;
    TrimmedPlain(s);
    DecodeThenEncode(s);
  }

  // ---- the checksummed form ----

  /** The first four bytes of the double hash. */
  type Checksum = seq<Byte> -> seq<Byte>

  ghost predicate FourBytes(h: Checksum) { forall v :: |h(v)| == 4 }

  /** The data, if the last four bytes are its checksum. */
  ghost function Unsummed(h: Checksum, v: seq<nat>): Option<seq<nat>>
  {
    if |v| < 4 || !Digits(256, v) then None
    else
      var n := |v| - 4;
      if h(AsBytes(v[..n])) != v[n..] then None else Some(v[..n])
  }

  ghost function DecCheck(h: Checksum, s: string): Option<seq<nat>>
  {
    match Dec(s)
    case None => None
    case Some(v) => Unsummed(h, v)
  }

  method EncodeCheck(h: Checksum, v: seq<Byte>) returns (s: string)
    ensures s == Enc(v + h(v))
  {
    s := Encode(v + h(v));
  }

  method DecodeCheck(h: Checksum, s: string) returns (r: Option<seq<nat>>)
    ensures r == DecCheck(h, s)
  {
    hide Dec;
    var d := Decode(s);
    if d.None? { return None; }
    DecDigits(s);
    var v := d.value;
    if |v| < 4 { return None; }
    var n := |v| - 4;
    if h(AsBytes(v[..n])) != v[n..] { return None; }
    r := Some(v[..n]);
  }

  lemma DecDigits(s: string)
    requires Dec(s).Some?
    ensures Digits(256, Dec(s).value)
  {
    hide Numeral, Val, Parse;
  }

  lemma CheckRoundTrip(h: Checksum, v: seq<Byte>)
    requires FourBytes(h)
    ensures DecCheck(h, Enc(v + h(v))) == Some(v)
  {
    hide Enc, Dec;
    EncodeThenDecode(v + h(v));
    var w := v + h(v);
    assert w[..|w| - 4] == v && w[|w| - 4..] == h(v);
  }

  /** Whatever the checksummed decoder accepts is what the encoder would have written, up to spaces. */
  lemma CheckAcceptsOnlyEncodings(h: Checksum, s: string)
    requires FourBytes(h) && DecCheck(h, s).Some?
    ensures Digits(256, DecCheck(h, s).value)
    ensures var v := AsBytes(DecCheck(h, s).value); Trimmed(s) == Enc(v + h(v))
  {
    hide Enc, Dec, Trimmed;
    DecDigits(s);
    DecodeThenEncode(s);
    var w := Dec(s).value;
    var v := AsBytes(w[..|w| - 4]);
    assert AsBytes(w) == v + h(v);
  }
}
