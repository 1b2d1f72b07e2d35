/** The language of partial merkle trees: a proof is accepted exactly when it is the preorder of a pruned tree. */
module PrunedTrees {
  import opened Basics
  import opened Merkle
  import opened PartialMerkle

  /** A tree whose subtrees without a wanted transaction may be cut; `One` is a node whose only child stands
      for both. */
  datatype Pruned = Cut(hash: Hash) | Leaf(hash: Hash, wanted: bool) | One(left: Pruned) | Two(left: Pruned, right: Pruned)

  /** The tree fits over n transactions at height h and position pos: only the last node of a layer of odd size
      has a single child. */
  predicate Fits(t: Pruned, n: nat, h: nat, pos: nat)
  {
    match t
    case Cut(_) => h > 0
    case Leaf(_, _) => h == 0
    case One(a) => h > 0 && 2 * pos + 1 >= Width(n, h - 1) && Fits(a, n, h - 1, 2 * pos)
    case Two(a, b) =>
      h > 0 && 2 * pos + 1 < Width(n, h - 1) && Fits(a, n, h - 1, 2 * pos) && Fits(b, n, h - 1, 2 * pos + 1)
  }

  /** One bit for each node, parents first: is the node opened, or, for a leaf, wanted. */
  function Bits(t: Pruned): seq<bool>
  {
    match t
    case Cut(_) => [false]
    case Leaf(_, wanted) => [wanted]
    case One(a) => [true] + Bits(a)
    case Two(a, b) => [true] + Bits(a) + Bits(b)
  }

  function Hashes(t: Pruned): seq<Hash>
  {
    match t
    case Cut(hash) => [hash]
    case Leaf(hash, _) => [hash]
    case One(a) => Hashes(a)
    case Two(a, b) => Hashes(a) + Hashes(b)
  }

  function Top(H: PairHash, t: Pruned): Hash
  {
    match t
    case Cut(hash) => hash
    case Leaf(hash, _) => hash
    case One(a) => H(Top(H, a), Top(H, a))
    case Two(a, b) => H(Top(H, a), Top(H, b))
  }

  function Chosen(t: Pruned): seq<Hash>
  {
    match t
    case Cut(_) => []
    case Leaf(hash, wanted) => if wanted then [hash] else []
    case One(a) => Chosen(a)
    case Two(a, b) => Chosen(a) + Chosen(b)
  }

  /** The tree stands in the data at the cursors. */
  ghost predicate Stands(t: Pruned, bits: seq<bool>, hashes: seq<Hash>, nb: nat, nh: nat)
  {
    At(bits, nb, Bits(t)) && At(hashes, nh, Hashes(t))
  }

  /** What was read is the tree, and no more than it. */
  ghost predicate IsRead(H: PairHash, t: Pruned, r: Read, nb: nat, nh: nat)
  {
    && !r.bad && r.hash == Top(H, t) && r.matches == Chosen(t)
    && r.nb == nb + |Bits(t)| && r.nh == nh + |Hashes(t)|
  }

  lemma AtJoin<T>(s: seq<T>, k: nat, a: seq<T>, b: seq<T>)
    requires At(s, k, a) && At(s, k + |a|, b)
    ensures At(s, k, a + b)
  {
    assert s[k..k + |a| + |b|] == s[k..k + |a|] + s[k + |a|..k + |a| + |b|];
  }

  lemma AtOne<T>(s: seq<T>, k: nat, x: T)
    ensures At(s, k, [x]) <==> k < |s| && s[k] == x
  {
    if k < |s| { assert s[k..k + 1] == [s[k]]; }
  }

  lemma AtParts<T>(s: seq<T>, k: nat, a: seq<T>, b: seq<T>)
    ensures At(s, k, a + b) <==> At(s, k, a) && At(s, k + |a|, b)
  {
    if At(s, k, a + b) { AtSplit(s, k, a, b); }
    if At(s, k, a) && At(s, k + |a|, b) { AtJoin(s, k, a, b); }
  }

  lemma StandsTwo(a: Pruned, b: Pruned, bits: seq<bool>, hashes: seq<Hash>, nb: nat, nh: nat)
    ensures Stands(Two(a, b), bits, hashes, nb, nh) <==>
            && At(bits, nb, [true]) && Stands(a, bits, hashes, nb + 1, nh)
            && Stands(b, bits, hashes, nb + 1 + |Bits(a)|, nh + |Hashes(a)|)
  {
    hide At;
    var ba, bb := Bits(a), Bits(b);
    assert Bits(Two(a, b)) == [true] + ba + bb;
    assert Hashes(Two(a, b)) == Hashes(a) + Hashes(b);
    hide Bits, Hashes;
    AtParts(bits, nb, [true] + ba, bb);
    AtParts(bits, nb, [true], ba);
    AtParts(hashes, nh, Hashes(a), Hashes(b));
  }

  lemma StandsOne(a: Pruned, bits: seq<bool>, hashes: seq<Hash>, nb: nat, nh: nat)
    ensures Stands(One(a), bits, hashes, nb, nh) <==> At(bits, nb, [true]) && Stands(a, bits, hashes, nb + 1, nh)
  {
    hide At;
    AtParts(bits, nb, [true], Bits(a));
  }

  lemma StandsEnd(t: Pruned, bits: seq<bool>, hashes: seq<Hash>, nb: nat, nh: nat)
    requires t.Cut? || t.Leaf?
    ensures Stands(t, bits, hashes, nb, nh) <==>
            nb < |bits| && nh < |hashes| && hashes[nh] == t.hash && bits[nb] == (t.Leaf? && t.wanted)
  {
    AtOne(bits, nb, t.Leaf? && t.wanted);
    AtOne(hashes, nh, t.hash);
    hide At;
  }

  lemma IsReadTwo(H: PairHash, a: Pruned, b: Pruned, x: Read, y: Read, nb: nat, nh: nat)
    requires IsRead(H, a, x, nb + 1, nh) && IsRead(H, b, y, x.nb, x.nh)
    ensures IsRead(H, Two(a, b), Read(H(x.hash, y.hash), y.nb, y.nh, x.matches + y.matches, x.positions + y.positions, false), nb, nh)
  {}

  lemma IsReadOne(H: PairHash, a: Pruned, x: Read, nb: nat, nh: nat)
    requires IsRead(H, a, x, nb + 1, nh)
    ensures IsRead(H, One(a), Read(H(x.hash, x.hash), x.nb, x.nh, x.matches, x.positions, false), nb, nh)
  {}

  lemma IsReadEnd(H: PairHash, t: Pruned, r: Read, nb: nat, nh: nat)
    requires (t.Cut? || t.Leaf?) && !r.bad && r.hash == t.hash && r.nb == nb + 1 && r.nh == nh + 1
    requires r.matches == if t.Leaf? && t.wanted then [t.hash] else []
    ensures IsRead(H, t, r, nb, nh)
  {}

  /** Whatever is read without running out of data is a pruned tree. */
  lemma {:induction false} TreeOfRead(
      H: PairHash, n: nat, bits: seq<bool>, hashes: seq<Hash>, h: nat, pos: nat, nb: nat, nh: nat) returns (t: Pruned)
    requires !Extract(H, n, bits, hashes, h, pos, nb, nh).bad
    ensures Fits(t, n, h, pos) && Stands(t, bits, hashes, nb, nh)
    ensures IsRead(H, t, Extract(H, n, bits, hashes, h, pos, nb, nh), nb, nh)
    decreases h
  {
    hide Width, Stands, IsRead, At;
    var r := Extract(H, n, bits, hashes, h, pos, nb, nh);
    if h == 0 || !bits[nb] {
      t := if h == 0 then Leaf(hashes[nh], bits[nb]) else Cut(hashes[nh]);
      StandsEnd(t, bits, hashes, nb, nh);
      IsReadEnd(H, t, r, nb, nh);
    } else {
      var x := Extract(H, n, bits, hashes, h - 1, 2 * pos, nb + 1, nh);
      var a := TreeOfRead(H, n, bits, hashes, h - 1, 2 * pos, nb + 1, nh);
      Sizes(H, a, x, nb + 1, nh);
      AtOne(bits, nb, true);
      if 2 * pos + 1 < Width(n, h - 1) {
        var y := Extract(H, n, bits, hashes, h - 1, 2 * pos + 1, x.nb, x.nh);
        var b := TreeOfRead(H, n, bits, hashes, h - 1, 2 * pos + 1, x.nb, x.nh);
        t := Two(a, b);
        StandsTwo(a, b, bits, hashes, nb, nh);
        IsReadTwo(H, a, b, x, y, nb, nh);
      } else {
        t := One(a);
        StandsOne(a, bits, hashes, nb, nh);
        IsReadOne(H, a, x, nb, nh);
      }
    }
  }

  lemma Sizes(H: PairHash, t: Pruned, r: Read, nb: nat, nh: nat)
    requires IsRead(H, t, r, nb, nh)
    ensures !r.bad && r.nb == nb + |Bits(t)| && r.nh == nh + |Hashes(t)|
  {}

  /** A pruned tree is read back from wherever it stands. */
  lemma {:induction false} ReadOfTree(
      H: PairHash, n: nat, bits: seq<bool>, hashes: seq<Hash>, h: nat, pos: nat, nb: nat, nh: nat, t: Pruned)
    requires Fits(t, n, h, pos) && Stands(t, bits, hashes, nb, nh)
    ensures IsRead(H, t, Extract(H, n, bits, hashes, h, pos, nb, nh), nb, nh)
    decreases t
  {
    hide Width, Stands, IsRead, At;
    var r := Extract(H, n, bits, hashes, h, pos, nb, nh);
    AtOne(bits, nb, true);
    match t {
      case Cut(_) => StandsEnd(t, bits, hashes, nb, nh); IsReadEnd(H, t, r, nb, nh);
      case Leaf(_, _) => StandsEnd(t, bits, hashes, nb, nh); IsReadEnd(H, t, r, nb, nh);
      case One(a) =>
        StandsOne(a, bits, hashes, nb, nh);
        var x := Extract(H, n, bits, hashes, h - 1, 2 * pos, nb + 1, nh);
        ReadOfTree(H, n, bits, hashes, h - 1, 2 * pos, nb + 1, nh, a);
        Sizes(H, a, x, nb + 1, nh);
        IsReadOne(H, a, x, nb, nh);
      case Two(a, b) =>
        StandsTwo(a, b, bits, hashes, nb, nh);
        var x := Extract(H, n, bits, hashes, h - 1, 2 * pos, nb + 1, nh);
        ReadOfTree(H, n, bits, hashes, h - 1, 2 * pos, nb + 1, nh, a);
        Sizes(H, a, x, nb + 1, nh);
        var y := Extract(H, n, bits, hashes, h - 1, 2 * pos + 1, x.nb, x.nh);
        ReadOfTree(H, n, bits, hashes, h - 1, 2 * pos + 1, x.nb, x.nh, b);
        Sizes(H, b, y, x.nb, x.nh);
        IsReadTwo(H, a, b, x, y, nb, nh);
    }
  }

  /** A message over n transactions is the tree: no hash is left over, and of the bits no more than fill a byte. */
  ghost predicate IsMessage(t: Pruned, n: nat, bits: seq<bool>, hashes: seq<Hash>)
  {
    && Fits(t, n, Depth(n), 0) && hashes == Hashes(t)
    && At(bits, 0, Bits(t)) && (|bits| + 7) / 8 == (|Bits(t)| + 7) / 8
  }

  predicate GoodSizes(n: nat, bits: seq<bool>, hashes: seq<Hash>, limit: nat)
  {
    0 < n && 60 * n <= limit && |hashes| <= n && |hashes| <= |bits|
  }

  /** Main result on refusals: an extraction returns a root only for the message of a pruned tree within the size
      limits, and then it returns that tree's root and wanted ids. */
  lemma RootMeansTree(H: PairHash, n: nat, bits: seq<bool>, hashes: seq<Hash>, limit: nat) returns (t: Pruned)
    requires Extracted(H, n, bits, hashes, limit).0 != 0
    ensures GoodSizes(n, bits, hashes, limit) && IsMessage(t, n, bits, hashes)
    ensures Extracted(H, n, bits, hashes, limit) == (Top(H, t), Chosen(t))
  {
    hide Extract, Fits, At, Bits, Hashes, Top, Chosen, Depth;
    t := TreeOfRead(H, n, bits, hashes, Depth(n), 0, 0, 0);
    WholeSequence(hashes, Hashes(t));
  }

  lemma WholeSequence<T>(s: seq<T>, part: seq<T>)
    ensures |part| == |s| && At(s, 0, part) <==> s == part
  {
    assert s[0..|s|] == s;
  }

  /** Every message of a pruned tree within the size limits is accepted. */
  lemma TreeMeansRoot(H: PairHash, n: nat, bits: seq<bool>, hashes: seq<Hash>, limit: nat, t: Pruned)
    requires GoodSizes(n, bits, hashes, limit) && IsMessage(t, n, bits, hashes)
    ensures Extracted(H, n, bits, hashes, limit) == (Top(H, t), Chosen(t))
  {
    hide Extract, Fits, At, Bits, Hashes, Top, Chosen, Depth;
    WholeSequence(hashes, Hashes(t));
    ReadOfTree(H, n, bits, hashes, Depth(n), 0, 0, 0, t);
  }

  // ---- what the program prints ----

  /** Only nodes with a wanted transaction below them are opened. */
  predicate Lean(t: Pruned)
  {
    match t
    case Cut(_) => true
    case Leaf(_, _) => true
    case One(a) => Chosen(t) != [] && Lean(a)
    case Two(a, b) => Chosen(t) != [] && Lean(a) && Lean(b)
  }

  lemma AnyMatchSplit(wanted: seq<bool>, lo: nat, mid: int, hi: int)
    requires lo <= mid <= hi <= |wanted|
    ensures AnyMatch(wanted, lo, hi) <==> AnyMatch(wanted, lo, mid) || AnyMatch(wanted, mid, hi)
  {}

  /** What is printed for a subtree: a lean pruned tree with the real hash, in which something is chosen exactly
      when something below is wanted. */
  lemma {:induction false} TreeOfPrinted(H: PairHash, l: seq<Hash>, wanted: seq<bool>, h: nat, pos: nat) returns (t: Pruned)
    requires |wanted| == |l| && pos < Width(|l|, h)
    ensures Fits(t, |l|, h, pos) && Lean(t) && Top(H, t) == CalcHash(H, l, h, pos)
    ensures Parts(Bits(t), Hashes(t)) == Printed(H, l, wanted, h, pos)
    ensures Chosen(t) != [] <==> AnyMatch(wanted, Lo(h, pos), Hi(|l|, h, pos))
    decreases h
  {
    hide Width, AnyMatch, Lo, Hi;
    var n := |l|;
    NodeRange(n, h, pos);
    var any := AnyMatch(wanted, Lo(h, pos), Hi(n, h, pos));
    if h == 0 {
      WidthZero(n);
      LeafRange(n, pos);
      WantedLeaf(l, wanted, pos);
      t := Leaf(l[pos], any);
    } else if !any {
      t := Cut(CalcHash(H, l, h, pos));
    } else {
      ChildRanges(n, h, pos);
      NodeRange(n, h - 1, 2 * pos);
      var a := TreeOfPrinted(H, l, wanted, h - 1, 2 * pos);
      if 2 * pos + 1 < Width(n, h - 1) {
        NodeRange(n, h - 1, 2 * pos + 1);
        var b := TreeOfPrinted(H, l, wanted, h - 1, 2 * pos + 1);
        AnyMatchSplit(wanted, Lo(h, pos), Lo(h - 1, 2 * pos + 1), Hi(n, h, pos));
        t := Two(a, b);
      } else {
        t := One(a);
      }
    }
  }

  /** Main result: the constructor prints the message of a lean tree with the block's merkle root and exactly the
      wanted ids, so it sends no hash below a node that has nothing wanted. */
  lemma PrintedIsLean(H: PairHash, l: seq<Hash>, wanted: seq<bool>) returns (t: Pruned)
    requires |wanted| == |l| && l != []
    ensures var p := PrintedTree(H, l, wanted); p == Parts(Bits(t), Hashes(t)) && IsMessage(t, |l|, p.bits, p.hashes)
    ensures Lean(t) && Top(H, t) == Root(H, l) && Chosen(t) == Wanted(l, wanted, 0, |l|)
  {
    TopWidth(|l|);
    TopIsRoot(H, l);
    PrintedSizes(H, l, wanted, Depth(|l|), 0);
    var p := PrintedTree(H, l, wanted);
    t := TreeOfPrinted(H, l, wanted, Depth(|l|), 0);
    hide Width, Fits, Lean, Bits, Hashes, Top, Chosen, Depth, At, Printed, Wanted, Root, Lo, Hi, CalcHash, Extracted, Extract;
    assert p == Parts(Bits(t), Hashes(t));
    WholeSequence(p.bits, Bits(t));
    assert p.bits + [] == p.bits;
    RoundTrip(H, l, wanted, 60 * |l|, []);
    TreeMeansRoot(H, |l|, p.bits, p.hashes, 60 * |l|, t);
  }
}
