/** The tree of known blocks (`CBlockIndex` entries linked by `pprev`) and paths in it. */
module BlockTree {
  /** A pointer to an index entry; NULL is not a block. */
  type BlockId = int
  const NULL: BlockId := -1

  /** The entries do not change while a tip is chosen, except for their failure flags, which are kept apart.
      `rank` stands for the order in which candidate tips are preferred, `valid` for the verdict of
      connecting the block on top of its parent. */
  datatype Index = Index(
    blocks: set<BlockId>, prev: map<BlockId, BlockId>, height: BlockId -> nat,
    size: BlockId -> nat, chainSize: BlockId -> nat,
    rank: BlockId -> int, valid: BlockId -> bool)
  {
    ghost predicate WellFormed()
    {
      && (forall b | b in blocks :: b != NULL)
      && (forall b | b in blocks && b in prev :: prev[b] in blocks && height(b) == height(prev[b]) + 1)
      && (forall b | b in blocks && b !in prev :: height(b) == 0)
    }

    /** `nChainSize` accumulates along `pprev`. */
    ghost predicate Accumulates()
    {
      forall b | b in blocks :: chainSize(b) == (if b in prev then chainSize(prev[b]) else 0) + size(b)
    }

    /** No two blocks are equally preferred. */
    ghost predicate Ranked() { forall b, c | b in blocks && c in blocks && rank(b) == rank(c) :: b == c }

    function Prev(b: BlockId): BlockId { if b in prev then prev[b] else NULL }
  }

  /** The blocks from the root to `b`. */
  ghost function Path(ix: Index, b: BlockId): (p: seq<BlockId>)
    requires ix.WellFormed() && b in ix.blocks
    ensures |p| == ix.height(b) + 1 && p[|p| - 1] == b
    decreases ix.height(b)
  {
    if b in ix.prev then Path(ix, ix.prev[b]) + [b] else [b]
  }

  ghost function PathTo(ix: Index, p: BlockId): seq<BlockId>
    requires ix.WellFormed() && (p == NULL || p in ix.blocks)
  {
    if p == NULL then [] else Path(ix, p)
  }

  /** Each block on a path sits at its own height, and the path up to it is its own path. */
  lemma {:induction false} PathPrefix(ix: Index, b: BlockId, i: nat)
    requires ix.WellFormed() && b in ix.blocks && i <= ix.height(b)
    ensures var c := Path(ix, b)[i]; c in ix.blocks && ix.height(c) == i && Path(ix, c) == Path(ix, b)[..i + 1]
    decreases ix.height(b)
  {
    if i < ix.height(b) { PathPrefix(ix, ix.prev[b], i); }
  }

  /** A sequence that is empty or the path to some block. */
  ghost predicate IsPath(ix: Index, p: seq<BlockId>)
    requires ix.WellFormed()
  {
    p == [] || (p[|p| - 1] in ix.blocks && p == Path(ix, p[|p| - 1]))
  }

  lemma PathIsPath(ix: Index, b: BlockId)
    requires ix.WellFormed() && b in ix.blocks
    ensures IsPath(ix, Path(ix, b))
  {}

  lemma IsPathAt(ix: Index, p: seq<BlockId>, i: nat)
    requires ix.WellFormed() && IsPath(ix, p) && i < |p|
    ensures p[i] in ix.blocks && ix.height(p[i]) == i && Path(ix, p[i]) == p[..i + 1]
  {
    PathPrefix(ix, p[|p| - 1], i);
  }

  lemma PrevOnPath(ix: Index, p: seq<BlockId>, i: nat)
    requires ix.WellFormed() && IsPath(ix, p) && i < |p|
    ensures i > 0 ==> p[i] in ix.prev && ix.prev[p[i]] == p[i - 1]
    ensures i == 0 ==> p[i] !in ix.prev
  {
    IsPathAt(ix, p, i);
    var q := Path(ix, p[i]);
    if i > 0 { assert q[i - 1] == p[i - 1]; }
  }

  /** Two paths that meet at a height agree below it. */
  lemma PathsAgreeBelow(ix: Index, p: seq<BlockId>, q: seq<BlockId>, i: nat)
    requires ix.WellFormed() && IsPath(ix, p) && IsPath(ix, q) && i < |p| && i < |q| && p[i] == q[i]
    ensures p[..i + 1] == q[..i + 1]
  {
    IsPathAt(ix, p, i);
    IsPathAt(ix, q, i);
  }
}
