/** `CPartialMerkleTree` (BIP 37): a depth-first printer of bits and hashes and the parser that reads them back. */
module PartialMerkle {
  import opened Basics
  import opened Merkle
  import Numerals

  /** `CalcTreeWidth`: the number of nodes at a height, over n transactions. */
  function Width(n: nat, h: nat): nat { (n + Pow2(h) - 1) / Pow2(h) }

  lemma MulLess(a: int, b: int, p: int)
    requires p > 0 && a * p < b * p
    ensures a < b
  {
    if a >= b { Numerals.ScaleMono(b, a, p); }
  }

  /** Division rounding up, by its bounds. */
  lemma CeilUnique(n: int, p: int, w: int)
    requires p > 0 && w * p >= n && (w - 1) * p < n
    ensures (n + p - 1) / p == w
  {
    var r := (n + p - 1) / p;
    assert r * p <= n + p - 1 < r * p + p;
    assert (w + 1) * p == w * p + p && (r + 1) * p == r * p + p && (w - 1) * p == w * p - p;
    MulLess(r, w + 1, p);
    MulLess(w, r + 1, p);
  }

  lemma WidthBounds(n: nat, h: nat)
    ensures var p, w := Pow2(h), Width(n, h); w * p >= n && (w - 1) * p < n
  {
    var p, w := Pow2(h), Width(n, h);
    assert w * p <= n + p - 1 < w * p + p;
    assert (w - 1) * p == w * p - p;
  }

  lemma HalveCeil(n: int, p: int, w: int)
    requires p > 0 && w >= 0 && w * p >= n && (w - 1) * p < n
    ensures (n + 2 * p - 1) / (2 * p) == (w + 1) / 2
  {
    var v := (w + 1) / 2;
    if w == 2 * v {
      assert v * (2 * p) == w * p && (v - 1) * (2 * p) == (w - 1) * p - p;
    } else {
      assert 2 * v == w + 1;
      assert v * (2 * p) == (w + 1) * p == w * p + p && (v - 1) * (2 * p) == (w - 1) * p;
    }
    CeilUnique(n, 2 * p, v);
  }

  /** Each layer has half as many nodes as the one below it, rounded up. */
  lemma WidthStep(n: nat, h: nat)
    ensures Width(n, h + 1) == (Width(n, h) + 1) / 2
  {
    WidthBounds(n, h);
    HalveCeil(n, Pow2(h), Width(n, h));
  }

  lemma WidthZero(n: nat)
    ensures Width(n, 0) == n
  {}

  /** The transactions below a node: from Lo up to, not including, Hi. */
  function Lo(h: nat, pos: nat): nat { pos * Pow2(h) }

  function Hi(n: nat, h: nat, pos: nat): (r: int)
    ensures r <= n
  {
    Min((pos + 1) * Pow2(h), n)
  }

  lemma NodeRange(n: nat, h: nat, pos: nat)
    ensures pos < Width(n, h) <==> Lo(h, pos) < n
    ensures pos < Width(n, h) ==> Lo(h, pos) < Hi(n, h, pos)
  {
    WidthBounds(n, h);
    hide Width, Pow2;
    var p, w := Pow2(h), Width(n, h);
    if pos < w { Numerals.ScaleMono(pos, w - 1, p); } else { Numerals.ScaleMono(w, pos, p); }
    assert (pos + 1) * p == pos * p + p;
  }

  /** A node's range is its children's ranges, one after the other. */
  lemma ChildRanges(n: nat, h: nat, pos: nat)
    requires h > 0 && pos < Width(n, h)
    ensures 2 * pos < Width(n, h - 1) && Lo(h - 1, 2 * pos) == Lo(h, pos)
    ensures if 2 * pos + 1 < Width(n, h - 1)
            then Hi(n, h - 1, 2 * pos) == Lo(h - 1, 2 * pos + 1) && Hi(n, h - 1, 2 * pos + 1) == Hi(n, h, pos)
            else Hi(n, h - 1, 2 * pos) == Hi(n, h, pos)
  {
    var p := Pow2(h - 1);
    assert Pow2(h) == 2 * p;
    WidthStep(n, h - 1);
    NodeRange(n, h, pos);
    hide Width, Pow2;
    assert pos * (2 * p) == (2 * pos) * p;
    assert (pos + 1) * (2 * p) == (2 * pos + 2) * p;
    assert (2 * pos + 2) * p == (2 * pos + 1) * p + p;
    NodeRange(n, h - 1, 2 * pos + 1);
  }

  function CalcHash(H: PairHash, l: seq<Hash>, h: nat, pos: nat): Hash
    requires pos < Width(|l|, h)
    decreases h
  {
    if h == 0 then WidthZero(|l|); l[pos]
    else
      ChildRanges(|l|, h, pos);
      var left := CalcHash(H, l, h - 1, 2 * pos);
      var right := if 2 * pos + 1 < Width(|l|, h - 1) then CalcHash(H, l, h - 1, 2 * pos + 1) else left;
      H(left, right)
  }

  lemma {:induction false} LayerWidth(H: PairHash, l: seq<Hash>, h: nat)
    ensures |Layer(H, l, h)| == Width(|l|, h)
    decreases h
  {
    hide Width, Up;
    if h == 0 {
      WidthZero(|l|);
    } else {
      LayerWidth(H, l, h - 1);
      UpSize(H, Layer(H, l, h - 1));
      WidthStep(|l|, h - 1);
    }
  }

  lemma LayerEntry(H: PairHash, l: seq<Hash>, h: nat, pos: nat)
    requires h > 0 && pos < |Layer(H, l, h)|
    ensures var below := Layer(H, l, h - 1);
            2 * pos < |below| && Layer(H, l, h)[pos] == H(below[2 * pos], below[Min(2 * pos + 1, |below| - 1)])
  {
    hide Up;
    UpEntry(H, Layer(H, l, h - 1), pos);
  }

  /** The recursive hash of a node is the entry of the layered tree. */
  lemma {:induction false} CalcHashIsLayer(H: PairHash, l: seq<Hash>, h: nat, pos: nat)
    requires pos < Width(|l|, h)
    ensures |Layer(H, l, h)| == Width(|l|, h) && CalcHash(H, l, h, pos) == Layer(H, l, h)[pos]
    decreases h
  {
    hide Width, Layer;
    LayerWidth(H, l, h);
    if h == 0 {
      assert Layer(H, l, 0) == l by { LayerZero(H, l); }
    } else {
      ChildRanges(|l|, h, pos);
      LayerEntry(H, l, h, pos);
      LayerWidth(H, l, h - 1);
      CalcHashIsLayer(H, l, h - 1, 2 * pos);
      if 2 * pos + 1 < Width(|l|, h - 1) { CalcHashIsLayer(H, l, h - 1, 2 * pos + 1); }
    }
  }

  lemma LayerZero(H: PairHash, l: seq<Hash>)
    ensures Layer(H, l, 0) == l
  {}

  lemma {:induction false} DepthOfWidth(n: nat, h: nat)
    requires h <= Depth(n)
    ensures Depth(Width(n, h)) == Depth(n) - h && (n > 0 ==> Width(n, h) > 0)
  {
    hide Width;
    WidthZero(n);
    if h > 0 {
      DepthOfWidth(n, h - 1);
      WidthStep(n, h - 1);
    }
  }

  lemma TopWidth(n: nat)
    requires n > 0
    ensures Width(n, Depth(n)) == 1 && Lo(Depth(n), 0) == 0 && Hi(n, Depth(n), 0) == n
  {
    DepthOfWidth(n, Depth(n));
    WidthBounds(n, Depth(n));
    hide Width, Pow2;
    var p := Pow2(Depth(n));
    assert 0 * p == 0 && 1 * p == p;
  }

  lemma TopIsRoot(H: PairHash, l: seq<Hash>)
    requires l != []
    ensures Width(|l|, Depth(|l|)) == 1 && CalcHash(H, l, Depth(|l|), 0) == Root(H, l)
  {
    hide Width, CalcHash;
    DepthOfWidth(|l|, Depth(|l|));
    LayerWidth(H, l, Depth(|l|));
    CalcHashIsLayer(H, l, Depth(|l|), 0);
    LayerFacts(H, l, Depth(|l|));
  }

  // ---- printing ----

  predicate AnyMatch(wanted: seq<bool>, lo: nat, hi: int)
    requires hi <= |wanted|
  {
    exists p | lo <= p < hi :: wanted[p]
  }

  datatype Parts = Parts(bits: seq<bool>, hashes: seq<Hash>)

  function Printed(H: PairHash, l: seq<Hash>, wanted: seq<bool>, h: nat, pos: nat): Parts
    requires |wanted| == |l| && pos < Width(|l|, h)
    decreases h
  {
    var n := |l|;
    var any := AnyMatch(wanted, Lo(h, pos), Hi(n, h, pos));
    if h == 0 || !any then Parts([any], [CalcHash(H, l, h, pos)])
    else
      ChildRanges(n, h, pos);
      var a := Printed(H, l, wanted, h - 1, 2 * pos);
      if 2 * pos + 1 < Width(n, h - 1) then
        var b := Printed(H, l, wanted, h - 1, 2 * pos + 1);
        Parts([any] + a.bits + b.bits, a.hashes + b.hashes)
      else Parts([any] + a.bits, a.hashes)
  }

  function PrintedTree(H: PairHash, l: seq<Hash>, wanted: seq<bool>): Parts
    requires |wanted| == |l| && l != []
  {
    TopWidth(|l|);
    Printed(H, l, wanted, Depth(|l|), 0)
  }

  function Joined(a: Parts, b: Parts): Parts { Parts(a.bits + b.bits, a.hashes + b.hashes) }

  lemma PrintedLeaf(H: PairHash, l: seq<Hash>, wanted: seq<bool>, h: nat, pos: nat, start: Parts)
    requires |wanted| == |l| && pos < Width(|l|, h)
    requires var any := AnyMatch(wanted, Lo(h, pos), Hi(|l|, h, pos)); h == 0 || !any
    ensures var any := AnyMatch(wanted, Lo(h, pos), Hi(|l|, h, pos));
            Joined(start, Printed(H, l, wanted, h, pos))
            == Parts(start.bits + [any], start.hashes + [CalcHash(H, l, h, pos)])
  {}

  lemma PrintedNode(H: PairHash, l: seq<Hash>, wanted: seq<bool>, h: nat, pos: nat, start: Parts)
    requires |wanted| == |l| && pos < Width(|l|, h) && h > 0 && AnyMatch(wanted, Lo(h, pos), Hi(|l|, h, pos))
    requires 2 * pos < Width(|l|, h - 1)
    ensures var a := Joined(Parts(start.bits + [true], start.hashes), Printed(H, l, wanted, h - 1, 2 * pos));
            Joined(start, Printed(H, l, wanted, h, pos)) ==
            if 2 * pos + 1 < Width(|l|, h - 1) then Joined(a, Printed(H, l, wanted, h - 1, 2 * pos + 1)) else a
  {
    hide Width, CalcHash, AnyMatch, Lo, Hi;
    var a := Printed(H, l, wanted, h - 1, 2 * pos);
    var whole := Printed(H, l, wanted, h, pos);
    if 2 * pos + 1 < Width(|l|, h - 1) {
      var b := Printed(H, l, wanted, h - 1, 2 * pos + 1);
      assert start.bits + ([true] + a.bits + b.bits) == start.bits + [true] + a.bits + b.bits;
      assert start.hashes + (a.hashes + b.hashes) == start.hashes + a.hashes + b.hashes;
    } else {
      assert start.bits + ([true] + a.bits) == start.bits + [true] + a.bits;
    }
  }

  // ---- parsing ----

  /** What reading one node yields: its hash, the cursors, the matched ids with the positions they were read
      at, and whether the data ran out. */
  datatype Read = Read(hash: Hash, nb: nat, nh: nat, matches: seq<Hash>, positions: seq<nat>, bad: bool)

  function Extract(H: PairHash, n: nat, bits: seq<bool>, hashes: seq<Hash>, h: nat, pos: nat, nb: nat, nh: nat): Read
    decreases h
  {
    if nb >= |bits| then Read(0, nb, nh, [], [], true)
    else if h == 0 || !bits[nb] then
      if nh >= |hashes| then Read(0, nb + 1, nh, [], [], true)
      else if h == 0 && bits[nb] then Read(hashes[nh], nb + 1, nh + 1, [hashes[nh]], [pos], false)
      else Read(hashes[nh], nb + 1, nh + 1, [], [], false)
    else
      var a := Extract(H, n, bits, hashes, h - 1, 2 * pos, nb + 1, nh);
      if 2 * pos + 1 < Width(n, h - 1) then
        var b := Extract(H, n, bits, hashes, h - 1, 2 * pos + 1, a.nb, a.nh);
        Read(H(a.hash, b.hash), b.nb, b.nh, a.matches + b.matches, a.positions + b.positions, a.bad || b.bad)
      else Read(H(a.hash, a.hash), a.nb, a.nh, a.matches, a.positions, a.bad)
  }

  /** The cases of `Extract`, with the list of matches it is appended to. */
  lemma ExtractUnfolds(H: PairHash, n: nat, bits: seq<bool>, hashes: seq<Hash>, h: nat, pos: nat, nb: nat, nh: nat,
                       vMatch: seq<Hash>)
    ensures var r := Extract(H, n, bits, hashes, h, pos, nb, nh);
            if nb >= |bits| then r == Read(0, nb, nh, [], [], true)
            else if h == 0 || !bits[nb] then
              if nh >= |hashes| then r == Read(0, nb + 1, nh, [], [], true)
              else r == (if h == 0 && bits[nb] then Read(hashes[nh], nb + 1, nh + 1, [hashes[nh]], [pos], false)
                         else Read(hashes[nh], nb + 1, nh + 1, [], [], false))
            else
              var a := Extract(H, n, bits, hashes, h - 1, 2 * pos, nb + 1, nh);
              if 2 * pos + 1 < Width(n, h - 1) then
                var b := Extract(H, n, bits, hashes, h - 1, 2 * pos + 1, a.nb, a.nh);
                && r.hash == H(a.hash, b.hash) && r.nb == b.nb && r.nh == b.nh && r.bad == (a.bad || b.bad)
                && vMatch + r.matches == vMatch + a.matches + b.matches
              else
                && r.hash == H(a.hash, a.hash) && r.nb == a.nb && r.nh == a.nh && r.bad == a.bad
                && vMatch + r.matches == vMatch + a.matches
    ensures vMatch + [] == vMatch
  {
    hide Width;
  }

  /** The checks around the traversal; `limit` is the maximal block size at the tip. */
  function Extracted(H: PairHash, n: nat, bits: seq<bool>, hashes: seq<Hash>, limit: nat): (Hash, seq<Hash>)
  {
    if n == 0 || n > limit / 60 || |hashes| > n || |bits| < |hashes| then (0, [])
    else
      var r := Extract(H, n, bits, hashes, Depth(n), 0, 0, 0);
      (if r.bad || (r.nb + 7) / 8 != (|bits| + 7) / 8 || r.nh != |hashes| then 0 else r.hash, r.matches)
  }

  class PartialTree {
    var nTransactions: nat
    var vBits: seq<bool>
    var vHash: seq<Hash>
    var fBad: bool

    constructor (n: nat, bits: seq<bool>, hashes: seq<Hash>)
      ensures nTransactions == n && vBits == bits && vHash == hashes && !fBad
    {
      nTransactions, vBits, vHash, fBad := n, bits, hashes, false;
    }

    constructor Build(H: PairHash, txids: seq<Hash>, wanted: seq<bool>)
      requires |wanted| == |txids| && txids != []
      ensures nTransactions == |txids| && !fBad
      ensures Parts(vBits, vHash) == PrintedTree(H, txids, wanted)
    {
      nTransactions, vBits, vHash, fBad := |txids|, [], [], false;
      new;
      var height := TreeHeight(|txids|);
      TopWidth(|txids|);
      TraverseAndBuild(H, txids, wanted, height, 0);
      assert [] + vBits == vBits && [] + vHash == vHash;
    }

    method TraverseAndBuild(H: PairHash, txids: seq<Hash>, wanted: seq<bool>, h: nat, pos: nat)
      requires |wanted| == |txids| == nTransactions && pos < Width(nTransactions, h)
      modifies this`vBits, this`vHash
      ensures Parts(vBits, vHash) == Joined(old(Parts(vBits, vHash)), Printed(H, txids, wanted, h, pos))
      decreases h
    {
      hide Width, CalcHash, AnyMatch, Lo, Hi, Printed, Joined;
      ghost var start := Parts(vBits, vHash);
      var any := ParentOfMatch(wanted, h, pos);
      vBits := vBits + [any];
      if h == 0 || !any {
        vHash := vHash + [CalcHash(H, txids, h, pos)];
        PrintedLeaf(H, txids, wanted, h, pos, start);
      } else {
        ChildRanges(nTransactions, h, pos);
        PrintedNode(H, txids, wanted, h, pos, start);
        TraverseAndBuild(H, txids, wanted, h - 1, 2 * pos);
        if 2 * pos + 1 < Width(nTransactions, h - 1) {
          TraverseAndBuild(H, txids, wanted, h - 1, 2 * pos + 1);
        }
      }
    }

    method ParentOfMatch(wanted: seq<bool>, h: nat, pos: nat) returns (any: bool)
      requires |wanted| == nTransactions && pos < Width(nTransactions, h)
      ensures any == AnyMatch(wanted, Lo(h, pos), Hi(nTransactions, h, pos))
    {
      NodeRange(nTransactions, h, pos);
      hide Width, Pow2;
      any := false;
      var p := Lo(h, pos);
      while p < (pos + 1) * Pow2(h) && p < nTransactions
        invariant Lo(h, pos) <= p <= Hi(nTransactions, h, pos)
        invariant any <==> AnyMatch(wanted, Lo(h, pos), p)
        decreases nTransactions - p
      {
        any := any || wanted[p];
        p := p + 1;
      }
    }

    /** The cursors and the list of matches are passed on; running out of data sets `fBad` for good. */
    method TraverseAndExtract(H: PairHash, h: nat, pos: nat, nb: nat, nh: nat, vMatch: seq<Hash>)
      returns (hash: Hash, nb': nat, nh': nat, vMatch': seq<Hash>)
      modifies this`fBad
      ensures var r := Extract(H, nTransactions, vBits, vHash, h, pos, nb, nh);
              && hash == r.hash && nb' == r.nb && nh' == r.nh && vMatch' == vMatch + r.matches
              && fBad == (old(fBad) || r.bad)
      decreases h
    {
      hide Width, Extract;
      ExtractUnfolds(H, nTransactions, vBits, vHash, h, pos, nb, nh, vMatch);
      if nb >= |vBits| {
        fBad := true;
        return 0, nb, nh, vMatch;
      }
      var f := vBits[nb];
      nb', nh', vMatch' := nb + 1, nh, vMatch;
      if h == 0 || !f {
        if nh >= |vHash| {
          fBad := true;
          return 0, nb', nh', vMatch';
        }
        hash := vHash[nh];
        nh' := nh + 1;
        if h == 0 && f { vMatch' := vMatch' + [hash]; }
      } else {
        var left, right;
        left, nb', nh', vMatch' := TraverseAndExtract(H, h - 1, 2 * pos, nb', nh', vMatch');
        if 2 * pos + 1 < Width(nTransactions, h - 1) {
          right, nb', nh', vMatch' := TraverseAndExtract(H, h - 1, 2 * pos + 1, nb', nh', vMatch');
        } else {
          right := left;
        }
        hash := H(left, right);
      }
    }

    method ExtractMatches(H: PairHash, limit: nat) returns (root: Hash, vMatch: seq<Hash>)
      modifies this`fBad
      ensures vMatch == Extracted(H, nTransactions, vBits, vHash, limit).1
      ensures root == if old(fBad) then 0 else Extracted(H, nTransactions, vBits, vHash, limit).0
    {
      root, vMatch := 0, [];
      if nTransactions == 0 { return; }
      if nTransactions > limit / 60 { return; }
      if |vHash| > nTransactions { return; }
      if |vBits| < |vHash| { return; }
      var height := TreeHeight(nTransactions);
      var nb, nh;
      root, nb, nh, vMatch := TraverseAndExtract(H, height, 0, 0, 0, []);
      ghost var r := Extract(H, nTransactions, vBits, vHash, height, 0, 0, 0);
      assert [] + r.matches == r.matches;
      hide Extract;
      if fBad { return 0, vMatch; }
      if (nb + 7) / 8 != (|vBits| + 7) / 8 { return 0, vMatch; }
      if nh != |vHash| { return 0, vMatch; }
    }
  }

  method TreeHeight(n: nat) returns (h: nat)
    ensures h == Depth(n)
  {
    hide Width;
    h := 0;
    WidthZero(n);
    while Width(n, h) > 1
      invariant h <= Depth(n) && Depth(Width(n, h)) == Depth(n) - h
      decreases Depth(n) - h
    {
      WidthStep(n, h);
      h := h + 1;
    }
  }

  // ---- round trip ----

  /** The wanted ids of a range, in order. */
  function Wanted(l: seq<Hash>, wanted: seq<bool>, lo: nat, hi: int): seq<Hash>
    requires hi <= |l| == |wanted|
    decreases hi - lo
  {
    if lo >= hi then [] else Wanted(l, wanted, lo, hi - 1) + (if wanted[hi - 1] then [l[hi - 1]] else [])
  }

  lemma {:induction false} WantedSplit(l: seq<Hash>, wanted: seq<bool>, lo: nat, mid: nat, hi: int)
    requires lo <= mid <= hi <= |l| == |wanted|
    ensures Wanted(l, wanted, lo, hi) == Wanted(l, wanted, lo, mid) + Wanted(l, wanted, mid, hi)
    decreases hi
  {
    if mid < hi { WantedSplit(l, wanted, lo, mid, hi - 1); }
  }

  lemma {:induction false} NothingWanted(l: seq<Hash>, wanted: seq<bool>, lo: nat, hi: int)
    requires hi <= |l| == |wanted| && !AnyMatch(wanted, lo, hi)
    ensures Wanted(l, wanted, lo, hi) == []
    decreases hi - lo
  {
    if lo < hi { NothingWanted(l, wanted, lo, hi - 1); }
  }

  lemma WantedLeaf(l: seq<Hash>, wanted: seq<bool>, pos: nat)
    requires pos < |l| == |wanted|
    ensures Wanted(l, wanted, pos, pos + 1) == if wanted[pos] then [l[pos]] else []
    ensures AnyMatch(wanted, pos, pos + 1) == wanted[pos]
  {
    assert Wanted(l, wanted, pos, pos) == [];
  }

  /** `part` occurs in `s` at offset k. */
  predicate At<T(==)>(s: seq<T>, k: nat, part: seq<T>) { k + |part| <= |s| && s[k..k + |part|] == part }

  lemma AtSplit<T>(s: seq<T>, k: nat, a: seq<T>, b: seq<T>)
    requires At(s, k, a + b)
    ensures At(s, k, a) && At(s, k + |a|, b)
  {
    var c := a + b;
    assert s[k..k + |a|] == s[k..k + |c|][..|a|];
    assert s[k + |a|..k + |c|] == s[k..k + |c|][|a|..];
  }

  /** The printed subtree at (h, pos) stands in the data at the cursors. */
  ghost predicate Placed(H: PairHash, l: seq<Hash>, wanted: seq<bool>, h: nat, pos: nat,
                         bits: seq<bool>, hashes: seq<Hash>, nb: nat, nh: nat)
    requires |wanted| == |l| && pos < Width(|l|, h)
  {
    var p := Printed(H, l, wanted, h, pos);
    At(bits, nb, p.bits) && At(hashes, nh, p.hashes)
  }

  /** Reading at the cursors yields that subtree's hash, moves past it and yields its wanted ids. */
  ghost predicate ReadBack(H: PairHash, l: seq<Hash>, wanted: seq<bool>, h: nat, pos: nat,
                           bits: seq<bool>, hashes: seq<Hash>, nb: nat, nh: nat)
    requires |wanted| == |l| && pos < Width(|l|, h)
  {
    var p, r := Printed(H, l, wanted, h, pos), Extract(H, |l|, bits, hashes, h, pos, nb, nh);
    && r.hash == CalcHash(H, l, h, pos) && r.nb == nb + |p.bits| && r.nh == nh + |p.hashes| && !r.bad
    && r.matches == Wanted(l, wanted, Lo(h, pos), Hi(|l|, h, pos))
  }

  lemma ReadsBackLeaf(H: PairHash, l: seq<Hash>, wanted: seq<bool>, h: nat, pos: nat,
                      bits: seq<bool>, hashes: seq<Hash>, nb: nat, nh: nat)
    requires |wanted| == |l| && pos < Width(|l|, h) && Placed(H, l, wanted, h, pos, bits, hashes, nb, nh)
    requires h == 0 || !AnyMatch(wanted, Lo(h, pos), Hi(|l|, h, pos))
    ensures ReadBack(H, l, wanted, h, pos, bits, hashes, nb, nh)
  {
    hide Width, AnyMatch, Wanted, Lo, Hi, At;
    var p := Printed(H, l, wanted, h, pos);
    AtFirst(bits, nb, p.bits);
    AtFirst(hashes, nh, p.hashes);
    if h == 0 {
      WidthZero(|l|);
      LeafRange(|l|, pos);
      WantedLeaf(l, wanted, pos);
    } else {
      NothingWanted(l, wanted, Lo(h, pos), Hi(|l|, h, pos));
    }
  }

  /** The children of a printed inner node stand one after the other. */
  lemma PlacedChildren(H: PairHash, l: seq<Hash>, wanted: seq<bool>, h: nat, pos: nat,
                       bits: seq<bool>, hashes: seq<Hash>, nb: nat, nh: nat)
    requires |wanted| == |l| && pos < Width(|l|, h) && Placed(H, l, wanted, h, pos, bits, hashes, nb, nh)
    requires h > 0 && AnyMatch(wanted, Lo(h, pos), Hi(|l|, h, pos)) && 2 * pos < Width(|l|, h - 1)
    ensures nb < |bits| && bits[nb]
    ensures Placed(H, l, wanted, h - 1, 2 * pos, bits, hashes, nb + 1, nh)
    ensures var a := Printed(H, l, wanted, h - 1, 2 * pos);
            2 * pos + 1 < Width(|l|, h - 1) ==>
              Placed(H, l, wanted, h - 1, 2 * pos + 1, bits, hashes, nb + 1 + |a.bits|, nh + |a.hashes|)
  {
    hide Width, AnyMatch, Lo, Hi, At, CalcHash;
    var p, a := Printed(H, l, wanted, h, pos), Printed(H, l, wanted, h - 1, 2 * pos);
    assert p.bits != [] && p.bits[0] && (2 * pos + 1 >= Width(|l|, h - 1) ==> p.hashes == a.hashes);
    AtFirst(bits, nb, p.bits);
    if 2 * pos + 1 < Width(|l|, h - 1) {
      var b := Printed(H, l, wanted, h - 1, 2 * pos + 1);
      assert p.bits == [true] + (a.bits + b.bits) && p.hashes == a.hashes + b.hashes;
      hide Printed;
      AtSplit(bits, nb, [true], a.bits + b.bits);
      AtSplit(bits, nb + 1, a.bits, b.bits);
      AtSplit(hashes, nh, a.hashes, b.hashes);
    } else {
      assert p.bits == [true] + a.bits && p.hashes == a.hashes;
      hide Printed;
      AtSplit(bits, nb, [true], a.bits);
    }
  }

  lemma ReadsBackNode(H: PairHash, l: seq<Hash>, wanted: seq<bool>, h: nat, pos: nat,
                      bits: seq<bool>, hashes: seq<Hash>, nb: nat, nh: nat)
    requires |wanted| == |l| && pos < Width(|l|, h) && nb < |bits| && bits[nb]
    requires h > 0 && AnyMatch(wanted, Lo(h, pos), Hi(|l|, h, pos)) && 2 * pos < Width(|l|, h - 1)
    requires ReadBack(H, l, wanted, h - 1, 2 * pos, bits, hashes, nb + 1, nh)
    requires var a := Printed(H, l, wanted, h - 1, 2 * pos);
             2 * pos + 1 < Width(|l|, h - 1) ==>
               ReadBack(H, l, wanted, h - 1, 2 * pos + 1, bits, hashes, nb + 1 + |a.bits|, nh + |a.hashes|)
    ensures ReadBack(H, l, wanted, h, pos, bits, hashes, nb, nh)
  {
    hide Width, AnyMatch, Wanted, Lo, Hi;
    var n := |l|;
    ChildRanges(n, h, pos);
    NodeRange(n, h - 1, 2 * pos);
    if 2 * pos + 1 < Width(n, h - 1) {
      NodeRange(n, h - 1, 2 * pos + 1);
      WantedSplit(l, wanted, Lo(h, pos), Lo(h - 1, 2 * pos + 1), Hi(n, h, pos));
    }
  }

  /** Reading back one printed subtree, wherever it stands in the data. */
  lemma {:induction false} ReadsBack(
      H: PairHash, l: seq<Hash>, wanted: seq<bool>, h: nat, pos: nat, bits: seq<bool>, hashes: seq<Hash>, nb: nat, nh: nat)
    requires |wanted| == |l| && pos < Width(|l|, h) && Placed(H, l, wanted, h, pos, bits, hashes, nb, nh)
    ensures ReadBack(H, l, wanted, h, pos, bits, hashes, nb, nh)
    decreases h
  {
    hide Width, AnyMatch, Lo, Hi, Placed, ReadBack, Printed;
    if h == 0 || !AnyMatch(wanted, Lo(h, pos), Hi(|l|, h, pos)) {
      ReadsBackLeaf(H, l, wanted, h, pos, bits, hashes, nb, nh);
    } else {
      ChildRanges(|l|, h, pos);
      PlacedChildren(H, l, wanted, h, pos, bits, hashes, nb, nh);
      var a := Printed(H, l, wanted, h - 1, 2 * pos);
      ReadsBack(H, l, wanted, h - 1, 2 * pos, bits, hashes, nb + 1, nh);
      if 2 * pos + 1 < Width(|l|, h - 1) {
        ReadsBack(H, l, wanted, h - 1, 2 * pos + 1, bits, hashes, nb + 1 + |a.bits|, nh + |a.hashes|);
      }
      ReadsBackNode(H, l, wanted, h, pos, bits, hashes, nb, nh);
    }
  }

  lemma AtFirst<T>(s: seq<T>, k: nat, part: seq<T>)
    requires At(s, k, part) && part != []
    ensures k < |s| && s[k] == part[0]
  {
    assert s[k..k + |part|][0] == s[k];
  }

  lemma LeafRange(n: nat, pos: nat)
    requires pos < n
    ensures Lo(0, pos) == pos && Hi(n, 0, pos) == pos + 1
  {}

  /** No more hashes than transactions below the node, and a bit for each hash. */
  lemma {:induction false} PrintedSizes(H: PairHash, l: seq<Hash>, wanted: seq<bool>, h: nat, pos: nat)
    requires |wanted| == |l| && pos < Width(|l|, h)
    ensures var p := Printed(H, l, wanted, h, pos);
            |p.hashes| <= Hi(|l|, h, pos) - Lo(h, pos) && |p.hashes| <= |p.bits|
    decreases h
  {
    hide Width, AnyMatch, CalcHash, Lo, Hi;
    NodeRange(|l|, h, pos);
    if h > 0 && AnyMatch(wanted, Lo(h, pos), Hi(|l|, h, pos)) {
      ChildRanges(|l|, h, pos);
      PrintedSizes(H, l, wanted, h - 1, 2 * pos);
      if 2 * pos + 1 < Width(|l|, h - 1) { PrintedSizes(H, l, wanted, h - 1, 2 * pos + 1); }
    }
  }

  /** Main result: what the constructor prints, possibly padded to whole bytes on the way, is read back as the
      merkle root of the block and its wanted transactions in order. */
  lemma RoundTrip(H: PairHash, l: seq<Hash>, wanted: seq<bool>, limit: nat, pad: seq<bool>)
    requires |wanted| == |l| && 0 < |l| <= limit / 60
    requires var k := |PrintedTree(H, l, wanted).bits|; (k + |pad| + 7) / 8 == (k + 7) / 8
    ensures var p := PrintedTree(H, l, wanted);
            Extracted(H, |l|, p.bits + pad, p.hashes, limit) == (Root(H, l), Wanted(l, wanted, 0, |l|))
    ensures var p := PrintedTree(H, l, wanted);
            var r := Extract(H, |l|, p.bits + pad, p.hashes, Depth(|l|), 0, 0, 0);
            !r.bad && r.nb == |p.bits| && r.nh == |p.hashes|
  {
    TopIsRoot(H, l);
    TopWidth(|l|);
    var h, p := Depth(|l|), PrintedTree(H, l, wanted);
    hide Width, Printed, Extract, Wanted, Lo, Hi, Root, Depth, CalcHash;
    assert At(p.bits + pad, 0, p.bits) && At(p.hashes, 0, p.hashes);
    hide At;
    PrintedSizes(H, l, wanted, h, 0);
    ReadsBack(H, l, wanted, h, 0, p.bits + pad, p.hashes, 0, 0);
  }

  // ---- soundness ----

  ghost predicate RealPositions(l: seq<Hash>, matches: seq<Hash>, positions: seq<nat>, lo: int, hi: int)
  {
    && |matches| == |positions|
    && (forall i | 0 <= i < |positions| :: lo <= positions[i] < hi)
    && (forall i | 0 <= i < |positions| :: positions[i] < |l| && matches[i] == l[positions[i]])
    && (forall i, j | 0 <= i < j < |positions| :: positions[i] < positions[j])
  }

  /** Whatever the bits and hashes are: a subtree that reads as the node's real hash yields real ids. */
  lemma {:induction false} ReadsTruth(
      H: PairHash, l: seq<Hash>, h: nat, pos: nat, bits: seq<bool>, hashes: seq<Hash>, nb: nat, nh: nat)
    requires CollisionFree(H) && pos < Width(|l|, h)
    requires var r := Extract(H, |l|, bits, hashes, h, pos, nb, nh); !r.bad && r.hash == CalcHash(H, l, h, pos)
    ensures var r := Extract(H, |l|, bits, hashes, h, pos, nb, nh);
            RealPositions(l, r.matches, r.positions, Lo(h, pos), Hi(|l|, h, pos))
    decreases h
  {
    hide Width, Lo, Hi, CollisionFree, RealPositions;
    var n := |l|;
    var r := Extract(H, n, bits, hashes, h, pos, nb, nh);
    NodeRange(n, h, pos);
    if h == 0 {
      WidthZero(n);
      LeafRange(n, pos);
      LeafPositions(l, pos);
    } else if !bits[nb] {
      NoPositions(l, Lo(h, pos), Hi(n, h, pos));
    } else {
      ChildRanges(n, h, pos);
      var a := Extract(H, n, bits, hashes, h - 1, 2 * pos, nb + 1, nh);
      var left := CalcHash(H, l, h - 1, 2 * pos);
      if 2 * pos + 1 < Width(n, h - 1) {
        var b := Extract(H, n, bits, hashes, h - 1, 2 * pos + 1, a.nb, a.nh);
        Collide(H, a.hash, b.hash, left, CalcHash(H, l, h - 1, 2 * pos + 1));
        ReadsTruth(H, l, h - 1, 2 * pos, bits, hashes, nb + 1, nh);
        ReadsTruth(H, l, h - 1, 2 * pos + 1, bits, hashes, a.nb, a.nh);
        NodeRange(n, h - 1, 2 * pos);
        NodeRange(n, h - 1, 2 * pos + 1);
        JoinPositions(l, a, b, Lo(h, pos), Lo(h - 1, 2 * pos + 1), Hi(n, h, pos));
      } else {
        Collide(H, a.hash, a.hash, left, left);
        ReadsTruth(H, l, h - 1, 2 * pos, bits, hashes, nb + 1, nh);
      }
    }
  }

  lemma NoPositions(l: seq<Hash>, lo: int, hi: int)
    ensures RealPositions(l, [], [], lo, hi)
  {}

  lemma LeafPositions(l: seq<Hash>, pos: nat)
    requires pos < |l|
    ensures RealPositions(l, [l[pos]], [pos], pos, pos + 1) && RealPositions(l, [], [], pos, pos + 1)
  {}

  lemma JoinPositions(l: seq<Hash>, a: Read, b: Read, lo: int, mid: int, hi: int)
    requires RealPositions(l, a.matches, a.positions, lo, mid) && RealPositions(l, b.matches, b.positions, mid, hi)
    requires lo <= mid <= hi
    ensures RealPositions(l, a.matches + b.matches, a.positions + b.positions, lo, hi)
  {}

  /** Main result: with a collision-free hash, for arbitrary bits and hashes and the true number of
      transactions, an extraction that yields the true root yields real ids, at increasing positions. */
  lemma ExtractionIsSound(H: PairHash, l: seq<Hash>, bits: seq<bool>, hashes: seq<Hash>, limit: nat)
    requires CollisionFree(H) && l != [] && Root(H, l) != 0
    requires Extracted(H, |l|, bits, hashes, limit).0 == Root(H, l)
    ensures var r := Extract(H, |l|, bits, hashes, Depth(|l|), 0, 0, 0);
            Extracted(H, |l|, bits, hashes, limit).1 == r.matches
            && RealPositions(l, r.matches, r.positions, 0, |l|)
  {
    hide Width, Extract, CollisionFree, RealPositions;
    TopIsRoot(H, l);
    TopWidth(|l|);
    ReadsTruth(H, l, Depth(|l|), 0, bits, hashes, 0, 0);
  }
}
