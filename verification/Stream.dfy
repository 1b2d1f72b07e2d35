/** Hashing a message block by block: the buffering argument shared by the hash functions. */
module Stream {
  /** A byte as a bit vector. */
  type Octet = bv8

  /** Feed all complete blocks of `data` to `step`. */
  function Run<S>(step: (S, seq<Octet>) -> S, lim: nat, s: S, data: seq<Octet>): S
    requires lim > 0
    decreases |data|
  {
    if |data| < lim then s else Run(step, lim, step(s, data[..lim]), data[lim..])
  }

  /** The bytes after the last complete block. */
  function Rest(lim: nat, data: seq<Octet>): (r: seq<Octet>)
    requires lim > 0
    ensures |r| < lim
    decreases |data|
  {
    if |data| < lim then data else Rest(lim, data[lim..])
  }

  /** A message may be cut anywhere: process the first part, keep its rest, and go on with the second. */
  lemma {:induction false} RunAppend<S>(step: (S, seq<Octet>) -> S, lim: nat, s: S, a: seq<Octet>, b: seq<Octet>)
    requires lim > 0
    ensures Run(step, lim, s, a + b) == Run(step, lim, Run(step, lim, s, a), Rest(lim, a) + b)
    ensures Rest(lim, a + b) == Rest(lim, Rest(lim, a) + b)
    decreases |a|
  {
    if |a| >= lim {
      assert (a + b)[..lim] == a[..lim] && (a + b)[lim..] == a[lim..] + b;
      RunAppend(step, lim, step(s, a[..lim]), a[lim..], b);
    }
  }

  /** One complete block. */
  lemma RunOne<S>(step: (S, seq<Octet>) -> S, lim: nat, s: S, block: seq<Octet>)
    requires lim > 0 && |block| == lim
    ensures Run(step, lim, s, block) == step(s, block) && Rest(lim, block) == []
  {
    assert block[..lim] == block && block[lim..] == [];
  }

  /** Adding at most what completes the current block. */
  lemma Fill<S>(step: (S, seq<Octet>) -> S, lim: nat, s: S, m: seq<Octet>, chunk: seq<Octet>)
    requires lim > 0 && |Rest(lim, m)| + |chunk| <= lim
    ensures |Rest(lim, m)| + |chunk| < lim ==>
              Run(step, lim, s, m + chunk) == Run(step, lim, s, m) && Rest(lim, m + chunk) == Rest(lim, m) + chunk
    ensures |Rest(lim, m)| + |chunk| == lim ==>
              Run(step, lim, s, m + chunk) == step(Run(step, lim, s, m), Rest(lim, m) + chunk) && Rest(lim, m + chunk) == []
  {
    RunAppend(step, lim, s, m, chunk);
    if |Rest(lim, m)| + |chunk| == lim { RunOne(step, lim, Run(step, lim, s, m), Rest(lim, m) + chunk); }
  }

  function ZeroBytes(n: nat): seq<Octet> { seq(n, _ => 0) }

  function Zeros(n: nat): seq<bool> { seq(n, _ => false) }

  /** `memcpy` into a buffer. */
  method CopyInto(dst: array<Octet>, at: nat, src: seq<Octet>)
    requires at + |src| <= dst.Length
    modifies dst
    ensures dst[..at + |src|] == old(dst[..at]) + src
  {
    forall i | 0 <= i < |src| { dst[at + i] := src[i]; }
  }

  // ---- bits ----

  /** The bits of a byte string, in a given order within each byte. */
  function Bits(order: Octet -> seq<bool>, s: seq<Octet>): seq<bool>
  {
    if s == [] then [] else order(s[0]) + Bits(order, s[1..])
  }

  lemma {:induction false} BitsAppend(order: Octet -> seq<bool>, a: seq<Octet>, b: seq<Octet>)
    ensures Bits(order, a + b) == Bits(order, a) + Bits(order, b)
  {
    if a == [] {
      assert a + b == b;
    } else {
      assert (a + b)[0] == a[0] && (a + b)[1..] == a[1..] + b;
      BitsAppend(order, a[1..], b);
    }
  }

  /** Where the bits of a byte stand. */
  lemma {:induction false} BitsAt(order: Octet -> seq<bool>, s: seq<Octet>, k: nat, j: nat)
    requires (forall b :: |order(b)| == 8) && k < |s| && j < 8
    ensures |Bits(order, s)| == 8 * |s| && |order(s[k])| == 8 && Bits(order, s)[8 * k + j] == order(s[k])[j]
  {
    BitsSize(order, s);
    if k > 0 { BitsAt(order, s[1..], k - 1, j); }
  }

  lemma {:induction false} BitsSize(order: Octet -> seq<bool>, s: seq<Octet>)
    requires forall b :: |order(b)| == 8
    ensures |Bits(order, s)| == 8 * |s|
  {
    if s != [] { BitsSize(order, s[1..]); }
  }

  /** The bits of some bytes in the middle. */
  lemma BitsSlice(order: Octet -> seq<bool>, s: seq<Octet>, i: nat, j: nat)
    requires (forall b :: |order(b)| == 8) && i <= j <= |s|
    ensures |Bits(order, s)| == 8 * |s| && Bits(order, s)[8 * i..8 * j] == Bits(order, s[i..j])
  {
    hide Bits;
    BitsSize(order, s);
    BitsSize(order, s[..i]);
    BitsSize(order, s[i..j]);
    BitsAppend(order, s[..i], s[i..]);
    BitsAppend(order, s[i..j], s[j..]);
    assert s[..i] + s[i..] == s && s[i..j] + s[j..] == s[i..];
  }

  lemma BitsOne(order: Octet -> seq<bool>, b: Octet)
    ensures Bits(order, [b]) == order(b)
  {}

  lemma {:induction false} BitsZero(order: Octet -> seq<bool>, n: nat)
    requires order(0) == Zeros(8)
    ensures Bits(order, ZeroBytes(n)) == Zeros(8 * n)
  {
    if n > 0 {
      assert ZeroBytes(n)[1..] == ZeroBytes(n - 1) && ZeroBytes(n)[0] == 0;
      BitsZero(order, n - 1);
    }
  }
}
