/** The merkle tree of a block (`BuildMerkleTree`, `GetMerkleBranch`, `CheckMerkleBranch`). */
module Merkle {
  import opened Basics

  type Hash = nat
  type PairHash = (Hash, Hash) -> Hash

  ghost predicate CollisionFree(H: PairHash)
  {
    forall a, b, c, d :: H(a, b) == H(c, d) ==> a == c && b == d
  }

  /** The next layer: neighbours are combined, a last one left over with itself. */
  function Up(H: PairHash, l: seq<Hash>): (r: seq<Hash>)
    ensures |r| == (|l| + 1) / 2
  {
    seq((|l| + 1) / 2, i requires 0 <= i < (|l| + 1) / 2 => H(l[2 * i], l[Min(2 * i + 1, |l| - 1)]))
  }

  lemma Collide(H: PairHash, a: Hash, b: Hash, c: Hash, d: Hash)
    requires CollisionFree(H) && H(a, b) == H(c, d)
    ensures a == c && b == d
  {}

  lemma UpEntry(H: PairHash, l: seq<Hash>, i: nat)
    requires i < |Up(H, l)|
    ensures 2 * i < |l| && Up(H, l)[i] == H(l[2 * i], l[Min(2 * i + 1, |l| - 1)])
  {}

  /** The parent of entry i. */
  lemma ParentOf(H: PairHash, l: seq<Hash>, i: nat)
    requires i < |l| && |l| > 1
    ensures i / 2 < |Up(H, l)|
    ensures Up(H, l)[i / 2] ==
      if i % 2 == 1 then H(l[i - 1], l[i]) else H(l[i], l[Min(i + 1, |l| - 1)])
  {
    var k := i / 2;
    assert i == 2 * k || i == 2 * k + 1;
  }

  function Root(H: PairHash, l: seq<Hash>): Hash
    requires l != []
    decreases |l|
  {
    if |l| == 1 then l[0] else Root(H, Up(H, l))
  }

  /** The roots of the smallest blocks. */
  lemma SmallRoots(H: PairHash, a: Hash, b: Hash, c: Hash)
    ensures Root(H, [a]) == a && Root(H, [a, b]) == H(a, b) && Root(H, [a, b, c]) == H(H(a, b), H(c, c))
  {
    var pair := [H(a, b), H(c, c)];
    assert Up(H, [a, b]) == [H(a, b)] && Up(H, [a, b, c]) == pair && Up(H, pair) == [H(H(a, b), H(c, c))];
    assert Root(H, Up(H, pair)) == H(H(a, b), H(c, c));
  }

  /** All layers, one after the other. */
  function Tree(H: PairHash, l: seq<Hash>): seq<Hash>
    decreases |l|
  {
    if |l| <= 1 then l else l + Tree(H, Up(H, l))
  }

  function Depth(n: nat): nat { if n <= 1 then 0 else 1 + Depth((n + 1) / 2) }

  lemma {:induction false} TreeEndsInRoot(H: PairHash, l: seq<Hash>)
    requires l != []
    ensures Tree(H, l) != [] && Tree(H, l)[|Tree(H, l)| - 1] == Root(H, l)
    decreases |l|
  {
    if |l| > 1 { TreeEndsInRoot(H, Up(H, l)); }
  }

  /** The neighbours on the way from entry i to the root. */
  function Branch(H: PairHash, l: seq<Hash>, i: nat): seq<Hash>
    requires i < |l|
    decreases |l|
  {
    if |l| <= 1 then [] else [l[Min(Sibling(i), |l| - 1)]] + Branch(H, Up(H, l), i / 2)
  }

  /** nIndex ^ 1 */
  function Sibling(i: nat): nat { if i % 2 == 0 then i + 1 else i - 1 }

  /** Hash upwards along a branch; the index is shifted right, keeping its sign. */
  function Climb(H: PairHash, h: Hash, branch: seq<Hash>, i: int): Hash
    decreases |branch|
  {
    if branch == [] then h
    else Climb(H, if i % 2 == 1 then H(branch[0], h) else H(h, branch[0]), branch[1..], i / 2)
  }

  class Block {
    const txids: seq<Hash>
    var vMerkleTree: seq<Hash>

    constructor (ids: seq<Hash>)
      ensures txids == ids && vMerkleTree == []
    {
      txids, vMerkleTree := ids, [];
    }

    method BuildMerkleTree(H: PairHash) returns (root: Hash)
      modifies this
      ensures vMerkleTree == Tree(H, txids)
      ensures root == if txids == [] then 0 else Root(H, txids)
    {
      hide Up;
      vMerkleTree := [];
      for i := 0 to |txids|
        invariant vMerkleTree == txids[..i]
      {
        vMerkleTree := vMerkleTree + [txids[i]];
      }
      var j := 0;
      var nSize := |txids|;
      ghost var layer := txids;
      while nSize > 1
        invariant |layer| == nSize && 0 <= j <= |vMerkleTree| && vMerkleTree[j..] == layer
        invariant vMerkleTree[..j] + Tree(H, layer) == Tree(H, txids)
        invariant txids == [] <==> layer == []
        decreases nSize
      {
        ghost var below := vMerkleTree;
        AddLayer(H, j, nSize, layer);
        ghost var next := Up(H, layer);
        UpSize(H, layer);
        LayerDone(below, vMerkleTree, j, layer, next, Tree(H, next));
        j := j + nSize;
        nSize := (nSize + 1) / 2;
        layer := next;
      }
      assert vMerkleTree == vMerkleTree[..j] + layer;
      if txids != [] { TreeEndsInRoot(H, txids); }
      root := if vMerkleTree == [] then 0 else vMerkleTree[|vMerkleTree| - 1];
    }

    /** The inner loop: append the layer above the one at offset j. */
    method AddLayer(H: PairHash, j: nat, nSize: nat, ghost layer: seq<Hash>)
      requires j + nSize == |vMerkleTree| && nSize > 1 && layer == vMerkleTree[j..]
      modifies this
      ensures vMerkleTree == old(vMerkleTree) + Up(H, layer)
    {
      ghost var base := vMerkleTree;
      var i := 0;
      while i < nSize
        invariant 0 <= i <= nSize + 1 && i % 2 == 0
        invariant vMerkleTree == base + Up(H, layer)[..i / 2]
      {
        var i2 := Min(i + 1, nSize - 1);
        assert vMerkleTree[j + i] == layer[i] && vMerkleTree[j + i2] == layer[i2];
        assert 2 * (i / 2) == i && Up(H, layer)[i / 2] == H(layer[i], layer[i2]);
        vMerkleTree := vMerkleTree + [H(vMerkleTree[j + i], vMerkleTree[j + i2])];
        i := i + 2;
      }
      assert Up(H, layer)[..i / 2] == Up(H, layer);
    }

    method GetMerkleBranch(H: PairHash, index: nat) returns (branch: seq<Hash>)
      requires index < |txids| && (vMerkleTree == [] || vMerkleTree == Tree(H, txids))
      modifies this
      ensures branch == Branch(H, txids, index) && vMerkleTree == Tree(H, txids)
    {
      hide Up, Branch, Tree, Sibling;
      if vMerkleTree == [] { var _ := BuildMerkleTree(H); }
      branch := [];
      var j, nSize, i := 0, |txids|, index;
      ghost var layer := txids;
      while nSize > 1
        invariant |layer| == nSize && 0 <= i < nSize && 0 <= j <= |vMerkleTree| && vMerkleTree == Tree(H, txids)
        invariant vMerkleTree[j..] == Tree(H, layer)
        invariant branch + Branch(H, layer, i) == Branch(H, txids, index)
        decreases nSize
      {
        var k := Min(Sibling(i), nSize - 1);
        UpSize(H, layer);
        BranchStep(H, layer, i, branch);
        NextLayer(vMerkleTree, j, layer, Tree(H, Up(H, layer)), k);
        branch := branch + [vMerkleTree[j + k]];
        i, j, nSize := i / 2, j + nSize, (nSize + 1) / 2;
        layer := Up(H, layer);
      }
      BranchEnds(H, layer, i, branch);
    }
  }

  lemma BranchStep(H: PairHash, l: seq<Hash>, i: nat, done: seq<Hash>)
    requires i < |l| && |l| > 1
    ensures i / 2 < |Up(H, l)| && Tree(H, l) == l + Tree(H, Up(H, l))
    ensures done + Branch(H, l, i) == (done + [l[Min(Sibling(i), |l| - 1)]]) + Branch(H, Up(H, l), i / 2)
  {}

  lemma BranchEnds(H: PairHash, l: seq<Hash>, i: nat, done: seq<Hash>)
    requires i < |l| <= 1
    ensures done + Branch(H, l, i) == done
  {}

  lemma LayerDone(below: seq<Hash>, t: seq<Hash>, j: nat, layer: seq<Hash>, next: seq<Hash>, rest: seq<Hash>)
    requires j <= |below| && below[j..] == layer && t == below + next
    ensures t[j + |layer|..] == next && t[..j + |layer|] + rest == below[..j] + (layer + rest)
  {
    assert below == below[..j] + layer;
  }

  lemma NextLayer(t: seq<Hash>, j: nat, layer: seq<Hash>, rest: seq<Hash>, k: nat)
    requires j <= |t| && t[j..] == layer + rest && k < |layer|
    ensures j + |layer| <= |t| && t[j + |layer|..] == rest && t[j + k] == layer[k]
  {
    assert t[j + |layer|..] == t[j..][|layer|..];
    assert t[j..][k] == t[j + k];
  }

  method CheckMerkleBranch(H: PairHash, hash: Hash, branch: seq<Hash>, index: int) returns (r: Hash)
    ensures r == if index == -1 then 0 else Climb(H, hash, branch, index)
  {
    if index == -1 { return 0; }
    r := hash;
    var i := index;
    for k := 0 to |branch|
      invariant Climb(H, r, branch[k..], i) == Climb(H, hash, branch, index)
    {
      assert branch[k..][1..] == branch[k + 1..];
      r := if i % 2 == 1 then H(branch[k], r) else H(r, branch[k]);
      i := i / 2;
    }
  }

  // ---- branches prove membership ----

  lemma UpSize(H: PairHash, l: seq<Hash>)
    ensures |Up(H, l)| == (|l| + 1) / 2 && (|l| > 1 ==> |Up(H, l)| < |l|)
  {}

  /** Every branch of the tree leads to the root. */
  lemma {:induction false} BranchReachesRoot(H: PairHash, l: seq<Hash>, i: nat)
    requires i < |l|
    ensures Climb(H, l[i], Branch(H, l, i), i) == Root(H, l)
    ensures |Branch(H, l, i)| == Depth(|l|)
    decreases |l|
  {
    if |l| > 1 {
      hide Up;
      ParentOf(H, l, i);
      UpSize(H, l);
      var b := Branch(H, l, i);
      assert b[1..] == Branch(H, Up(H, l), i / 2);
      BranchReachesRoot(H, Up(H, l), i / 2);
    }
  }

  /** And with a collision-free hash nothing else does: a branch of the right length that leads to the root
      starts from the entry it claims to be for. */
  lemma {:induction false} BranchIsSound(H: PairHash, l: seq<Hash>, i: nat, h: Hash, branch: seq<Hash>)
    requires CollisionFree(H) && i < |l| && |branch| == Depth(|l|) && Climb(H, h, branch, i) == Root(H, l)
    ensures h == l[i]
    decreases |l|
  {
    if |l| > 1 {
      hide Up, CollisionFree;
      ParentOf(H, l, i);
      UpSize(H, l);
      if i % 2 == 1 {
        BranchIsSound(H, Up(H, l), i / 2, H(branch[0], h), branch[1..]);
        Collide(H, branch[0], h, l[i - 1], l[i]);
      } else {
        BranchIsSound(H, Up(H, l), i / 2, H(h, branch[0]), branch[1..]);
        Collide(H, h, branch[0], l[i], l[Min(i + 1, |l| - 1)]);
      }
    }
  }

  // ---- the root binds a list without duplicates ----

  lemma UpDistinct(H: PairHash, l: seq<Hash>)
    requires CollisionFree(H) && Distinct(l)
    ensures Distinct(Up(H, l))
  {
    var r := Up(H, l);
    hide CollisionFree;
    forall i, j | 0 <= i < j < |r| ensures r[i] != r[j]
    {
      assert l[2 * i] != l[2 * j];
      if r[i] == r[j] { Collide(H, l[2 * i], l[Min(2 * i + 1, |l| - 1)], l[2 * j], l[Min(2 * j + 1, |l| - 1)]); }
    }
  }

  lemma UpInjective(H: PairHash, a: seq<Hash>, b: seq<Hash>)
    requires CollisionFree(H) && Distinct(a) && Distinct(b) && Up(H, a) == Up(H, b)
    ensures a == b
  {
    var r := Up(H, a);
    hide CollisionFree;
    forall i | 0 <= i < |r|
      ensures a[2 * i] == b[2 * i] && a[Min(2 * i + 1, |a| - 1)] == b[Min(2 * i + 1, |b| - 1)]
    {
      assert r[i] == Up(H, b)[i];
      Collide(H, a[2 * i], a[Min(2 * i + 1, |a| - 1)], b[2 * i], b[Min(2 * i + 1, |b| - 1)]);
    }
    if |r| > 0 {
      var m := |r| - 1;
      OddTail(a, m);
      OddTail(b, m);
    }
    assert |a| == |b|;
    forall k | 0 <= k < |a| ensures a[k] == b[k]
    {
      assert k == 2 * (k / 2) || k == Min(2 * (k / 2) + 1, |a| - 1);
    }
  }

  /** The last pair repeats one entry exactly when the length is odd. */
  lemma OddTail(l: seq<Hash>, m: nat)
    requires Distinct(l) && |l| > 0 && m == (|l| + 1) / 2 - 1
    ensures 2 * m < |l| && (l[2 * m] == l[Min(2 * m + 1, |l| - 1)] <==> |l| == 2 * m + 1)
  {}

  lemma {:induction false} SameDepthBinds(H: PairHash, a: seq<Hash>, b: seq<Hash>)
    requires CollisionFree(H) && Distinct(a) && Distinct(b) && a != [] && b != []
    requires Depth(|a|) == Depth(|b|) && Root(H, a) == Root(H, b)
    ensures a == b
    decreases |a|
  {
    if |a| > 1 {
      hide Up, CollisionFree, Distinct;
      UpSize(H, a);
      UpSize(H, b);
      UpDistinct(H, a);
      UpDistinct(H, b);
      SameDepthBinds(H, Up(H, a), Up(H, b));
      UpInjective(H, a, b);
    }
  }

  function Layer(H: PairHash, l: seq<Hash>, k: nat): seq<Hash> { if k == 0 then l else Up(H, Layer(H, l, k - 1)) }

  lemma {:induction false} LayerFacts(H: PairHash, l: seq<Hash>, k: nat)
    requires l != [] && k <= Depth(|l|)
    ensures Layer(H, l, k) != [] && Root(H, Layer(H, l, k)) == Root(H, l) && Depth(|Layer(H, l, k)|) == Depth(|l|) - k
    ensures CollisionFree(H) && Distinct(l) ==> Distinct(Layer(H, l, k))
  {
    if k > 0 {
      hide Up, CollisionFree, Distinct;
      LayerFacts(H, l, k - 1);
      UpSize(H, Layer(H, l, k - 1));
      if CollisionFree(H) && Distinct(l) { UpDistinct(H, Layer(H, l, k - 1)); }
    }
  }

  lemma DeeperLayerIsHashes(H: PairHash, a: seq<Hash>, b: seq<Hash>)
    requires CollisionFree(H) && Distinct(a) && Distinct(b) && a != [] && b != []
    requires Depth(|a|) < Depth(|b|) && Root(H, a) == Root(H, b)
    ensures exists x, y :: H(x, y) in a
  {
    hide CollisionFree, Distinct, Depth;
    var k := Depth(|b|) - Depth(|a|);
    LayerFacts(H, b, k);
    SameDepthBinds(H, a, Layer(H, b, k));
    var l := Layer(H, b, k - 1);
    LayerFacts(H, b, k - 1);
    hide Up;
    UpEntry(H, l, 0);
    assert a[0] == H(l[0], l[Min(1, |l| - 1)]);
  }

  /** Main result: with a collision-free pair hash that yields no transaction id, two lists of distinct ids
      with the same root are the same list, even if their lengths were not known to be equal. */
  lemma RootBinds(H: PairHash, a: seq<Hash>, b: seq<Hash>)
    requires CollisionFree(H) && Distinct(a) && Distinct(b) && a != [] && b != []
    requires forall x, y :: H(x, y) !in a && H(x, y) !in b
    requires Root(H, a) == Root(H, b)
    ensures a == b
  {
    if Depth(|a|) < Depth(|b|) {
      DeeperLayerIsHashes(H, a, b);
    } else if Depth(|b|) < Depth(|a|) {
      DeeperLayerIsHashes(H, b, a);
    } else {
      SameDepthBinds(H, a, b);
    }
  }

  /** Without the duplicate test the root binds nothing: repeating the last of an odd number of ids keeps it,
      whatever the hash. */
  lemma DuplicateKeepsRoot(H: PairHash, l: seq<Hash>)
    requires |l| % 2 == 1 && |l| > 1
    ensures Root(H, l + [l[|l| - 1]]) == Root(H, l) && !Distinct(l + [l[|l| - 1]])
  {
    var m := l + [l[|l| - 1]];
    assert m[|l| - 1] == m[|l|];
    assert Up(H, m) == Up(H, l);
  }
}
