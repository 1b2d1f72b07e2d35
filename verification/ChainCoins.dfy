/** The choice of the best chain and the coins together: the verdicts that decide the choice are those of connecting
    blocks to the coins, and the moves of the active tip are steps of a run. */
module ChainCoins {
  import opened BlockTree
  import opened ChainTip
  import opened ChainSelect
  import opened UtxoSet
  import opened UtxoUndo
  import opened Supply
  import opened Reorg

  /** The block behind an index entry. */
  type Bodies = BlockId -> Block

  /** The node after connecting the blocks of a path to nothing, flushed after each. */
  function NodeAt(body: Bodies, p: seq<BlockId>): Node
  {
    if p == [] then START
    else
      var n := |p| - 1;
      var a := NodeAt(body, p[..n]);
      var (view, undos) := ConnectTxs(a.view, body(p[n]).txs, n);
      Node(Stored(view), a.chain + [Entry(body(p[n]), undos)])
  }

  /** The last block of a path is accepted on the coins of the blocks below it. */
  predicate AcceptedAt(rules: Rules, body: Bodies, p: seq<BlockId>)
    requires p != []
  {
    var n := |p| - 1;
    Accepts(rules, NodeAt(body, p[..n]).view, body(p[n]), n, n == 0)
  }

  /** The verdicts of the index are those of the coins. */
  ghost predicate Judged(rules: Rules, body: Bodies, ix: Index)
    requires ix.WellFormed()
  {
    forall b | b in ix.blocks :: ix.valid(b) <==> AcceptedAt(rules, body, Path(ix, b))
  }

  /** The last block of a path can be disconnected cleanly. */
  ghost predicate KeptAt(body: Bodies, p: seq<BlockId>)
    requires p != []
  {
    KeepsHeightZero(NodeAt(body, p[..|p| - 1]).view, body(p[|p| - 1]).txs)
  }

  ghost predicate Undoable(body: Bodies, ix: Index)
    requires ix.WellFormed()
  {
    forall b | b in ix.blocks && ix.height(b) > 0 && FullyValid(ix, b) :: KeptAt(body, Path(ix, b))
  }

  /** The chain of a node holds the blocks of a path. */
  ghost predicate Holds(body: Bodies, chain: seq<Entry>, p: seq<BlockId>)
  {
    |chain| == |p| && forall i | 0 <= i < |p| :: chain[i].block == body(p[i])
  }

  lemma {:induction false} NodeHolds(body: Bodies, p: seq<BlockId>)
    ensures Holds(body, NodeAt(body, p).chain, p)
  {
    hide ConnectTxs, Stored;
    if p != [] { NodeHolds(body, p[..|p| - 1]); }
  }

  // ---- a verdict depends on the path only ----

  /** Whatever a run did before, its chain determines the node that the chain's blocks lead to. */
  lemma {:induction false} ChainIsNode(rules: Rules, body: Bodies, chain: seq<Entry>, p: seq<BlockId>)
    requires ChainOk(rules, chain) && Holds(body, chain, p)
    ensures NodeAt(body, p) == Node(Stored(Replay(chain)), chain)
  {
    hide Equiv, ConnectTxs, Accepts, AllWellFormed, Connectable, Stored;
    if chain == [] {
      NothingStored();
    } else {
      var h := |chain| - 1;
      var txs, r := chain[h].block.txs, Replay(chain[..h]);
      ChainIsNode(rules, body, chain[..h], p[..h]);
      var w :| AcceptedOn(rules, chain, w);
      AcceptedConnectable(rules, w, chain[h].block, h, h == 0);
      SameOnStored(rules, r, w, txs, h);
      assert chain == chain[..h] + [chain[h]];
    }
  }

  lemma NothingStored()
    ensures Stored(map[]) == map[]
  {}

  lemma SameOnStored(rules: Rules, r: Utxo, w: Utxo, txs: seq<Tx>, h: int)
    requires Equiv(r, w) && Connectable(rules, w, txs, h)
    ensures ConnectTxs(Stored(r), txs, h).1 == ConnectTxs(w, txs, h).1
    ensures Stored(ConnectTxs(Stored(r), txs, h).0) == Stored(ConnectTxs(r, txs, h).0)
  {
    hide *;
    EquivSym(r, w);
    StoredEquiv(r);
    EquivTrans(w, r, Stored(r));
    ConnectEquivUndo(rules, w, Stored(r), txs, h);
    ConnectEquiv(rules, w, Stored(r), txs, h);
    ConnectEquiv(rules, w, r, txs, h);
    EquivSym(ConnectTxs(w, txs, h).0, ConnectTxs(Stored(r), txs, h).0);
    EquivTrans(ConnectTxs(Stored(r), txs, h).0, ConnectTxs(w, txs, h).0, ConnectTxs(r, txs, h).0);
    StoredSame(ConnectTxs(Stored(r), txs, h).0, ConnectTxs(r, txs, h).0);
  }

  lemma FlushedNode(rules: Rules, body: Bodies, n: Node, p: seq<BlockId>)
    requires Inv(rules, n) && Unpruned(n.view) && Holds(body, n.chain, p)
    ensures n == NodeAt(body, p)
  {
    hide *;
    InvParts(rules, n);
    ChainIsNode(rules, body, n.chain, p);
    StoredSame(Replay(n.chain), n.view);
    StoredIs(n.view);
  }

  /** Main result: after every run, on a flushed node whose active chain is the path to a block's parent, the block
      is accepted exactly when the index calls it valid. The path alone decides, not what the node did before. */
  lemma VerdictIsPathwise(rules: Rules, body: Bodies, ix: Index, states: seq<Node>, b: BlockId)
    requires ix.WellFormed() && Judged(rules, body, ix) && b in ix.blocks && Run(rules, states)
    requires var n := states[|states| - 1]; Unpruned(n.view) && Holds(body, n.chain, Path(ix, b)[..ix.height(b)])
    ensures var n := states[|states| - 1];
            Accepts(rules, n.view, body(b), |n.chain|, |n.chain| == 0) <==> ix.valid(b)
  {
    hide Inv, Unpruned, Accepts, Path, NodeAt;
    ViewIsReplayOfChain(rules, states);
    FlushedNode(rules, body, states[|states| - 1], Path(ix, b)[..ix.height(b)]);
  }

  // ---- the moves of the tip are steps of a run ----

  lemma NodeNext(body: Bodies, p: seq<BlockId>)
    requires p != []
    ensures var n := |p| - 1;
            var a := NodeAt(body, p[..n]);
            && |a.chain| == n
            && NodeAt(body, p) == Node(Stored(ConnectTxs(a.view, body(p[n]).txs, n).0),
                                       a.chain + [Entry(body(p[n]), ConnectTxs(a.view, body(p[n]).txs, n).1)])
  {
    hide ConnectTxs, Stored;
    NodeHolds(body, p[..|p| - 1]);
  }

  /** Connecting an accepted block and flushing. */
  lemma ConnectRuns(rules: Rules, body: Bodies, p: seq<BlockId>) returns (mid: Node)
    requires p != [] && AcceptedAt(rules, body, p)
    ensures Connects(rules, NodeAt(body, p[..|p| - 1]), mid) && Flushes(mid, NodeAt(body, p))
  {
    var n := |p| - 1;
    NodeNext(body, p);
    hide ConnectTxs, Stored, Accepts, NodeAt;
    var a := NodeAt(body, p[..n]);
    var (view, undos) := ConnectTxs(a.view, body(p[n]).txs, n);
    mid := Node(view, a.chain + [Entry(body(p[n]), undos)]);
  }

  /** Every accepted path leads to a node that satisfies the invariant of runs and is flushed. */
  lemma NodeInv(rules: Rules, body: Bodies, p: seq<BlockId>)
    requires p != [] && Inv(rules, NodeAt(body, p[..|p| - 1])) && AcceptedAt(rules, body, p)
    ensures Inv(rules, NodeAt(body, p)) && Unpruned(NodeAt(body, p).view)
  {
    hide Inv, Connects, AcceptedAt, Stored, NodeAt, Unpruned;
    var mid := ConnectRuns(rules, body, p);
    ConnectKeepsInv(rules, NodeAt(body, p[..|p| - 1]), mid);
    FlushKeepsInv(rules, mid, NodeAt(body, p));
    StoredUnpruned(mid.view);
  }

  /** Undoing the last block of a path from the flushed coins: clean exactly when records of height 0 are kept. */
  lemma UndoesAt(rules: Rules, body: Bodies, p: seq<BlockId>)
    requires |p| >= 2 && Inv(rules, NodeAt(body, p[..|p| - 1])) && AcceptedAt(rules, body, p)
    ensures var n := |p| - 1;
            var u, txs := NodeAt(body, p[..n]).view, body(p[n]).txs;
            var (v, undos) := ConnectTxs(u, txs, n);
            && UndoFits(txs, undos)
            && var r := DisconnectTxs(Undone(Stored(v), true), txs, undos, n, |txs|);
               (r.clean <==> KeptAt(body, p)) && (r.clean ==> Equiv(u, r.coins))
  {
    InvParts(rules, NodeAt(body, p[..|p| - 1]));
    hide ConnectTxs, Stored, Equiv, Inv, NodeAt, Accepts, DisconnectTxs, KeepsHeightZero, AllWellFormed, UndoFits, ChainOk, Replay;
    UndoFlushed(rules, NodeAt(body, p[..|p| - 1]).view, body(p[|p| - 1]), |p| - 1);
  }

  lemma UndoFlushed(rules: Rules, u: Utxo, block: Block, height: int)
    requires AllWellFormed(u) && height >= 1 && Accepts(rules, u, block, height, false)
    ensures var (v, undos) := ConnectTxs(u, block.txs, height);
            && UndoFits(block.txs, undos)
            && var r := DisconnectTxs(Undone(Stored(v), true), block.txs, undos, height, |block.txs|);
               (r.clean <==> KeepsHeightZero(u, block.txs)) && (r.clean ==> Equiv(u, r.coins))
  {
    hide ConnectTxs, CheckTransaction, TxsOk, KeepsHeightZero, Tracks, Alive, DisconnectTxs, Equiv, AllWellFormed, Stored, Fees, ValueOut;
    var txs := block.txs;
    var v := ConnectTxs(u, txs, height).0;
    assert txs[..|txs|] == txs;
    StoredEquiv(v);
    DisconnectInverts(rules, u, Stored(v), txs, height, true, |txs|);
    ConnectTracks(rules, u, txs, height);
    AliveMeansKept(u, v, txs);
  }

  /** Disconnecting the tip and flushing leads back to the node of the shorter path, and can be done exactly when
      the block leaves every record of height 0 an output. */
  lemma DisconnectRuns(rules: Rules, body: Bodies, p: seq<BlockId>) returns (mid: Node)
    requires |p| >= 2 && AcceptedAt(rules, body, p)
    requires Inv(rules, NodeAt(body, p[..|p| - 1])) && Unpruned(NodeAt(body, p[..|p| - 1]).view)
    ensures KeptAt(body, p) ==> Disconnects(NodeAt(body, p), mid) && Flushes(mid, NodeAt(body, p[..|p| - 1]))
    ensures !KeptAt(body, p) ==> forall m :: !Disconnects(NodeAt(body, p), m)
  {
    hide ConnectTxs, Stored, Equiv, Inv, NodeAt, AcceptedAt, DisconnectTxs, KeptAt, UndoFits, Unpruned;
    var n := |p| - 1;
    var a, txs := NodeAt(body, p[..n]), body(p[n]).txs;
    NodeNext(body, p);
    UndoesAt(rules, body, p);
    var (v, undos) := ConnectTxs(a.view, txs, n);
    var r := DisconnectTxs(Undone(Stored(v), true), txs, undos, n, |txs|);
    mid := Node(r.coins, a.chain);
    if r.clean {
      StoredSame(a.view, r.coins);
      StoredIs(a.view);
    }
  }

  // ---- whole traces ----

  /** A path of valid blocks, and its node. */
  ghost predicate Active(rules: Rules, body: Bodies, ix: Index, p: seq<BlockId>)
    requires ix.WellFormed()
  {
    IsPath(ix, p) && AllValid(ix, p) && Inv(rules, NodeAt(body, p)) && Unpruned(NodeAt(body, p).view)
  }

  /** The verdict on the last block of a valid path is the index's. */
  lemma TipVerdict(rules: Rules, body: Bodies, ix: Index, p: seq<BlockId>)
    requires ix.WellFormed() && Judged(rules, body, ix) && IsPath(ix, p) && p != []
    ensures ix.valid(p[|p| - 1]) <==> AcceptedAt(rules, body, p)
  {
    hide AcceptedAt;
    IsPathAt(ix, p, |p| - 1);
    assert p[..|p|] == p;
  }

  lemma PrefixPath(ix: Index, p: seq<BlockId>, n: nat)
    requires ix.WellFormed() && IsPath(ix, p) && AllValid(ix, p) && n <= |p|
    ensures IsPath(ix, p[..n]) && AllValid(ix, p[..n])
  {
    if n > 0 { IsPathAt(ix, p, n - 1); }
  }

  lemma {:induction false} PathActive(rules: Rules, body: Bodies, ix: Index, p: seq<BlockId>)
    requires ix.WellFormed() && Judged(rules, body, ix) && IsPath(ix, p) && AllValid(ix, p)
    ensures Active(rules, body, ix, p)
  {
    hide Judged, IsPath, Inv, AcceptedAt, Unpruned;
    if p == [] {
      StartInv(rules);
      NothingPruned();
    } else {
      hide NodeAt;
      var n := |p| - 1;
      PrefixPath(ix, p, n);
      PathActive(rules, body, ix, p[..n]);
      TipVerdict(rules, body, ix, p);
      assert ix.valid(p[n]);
      NodeInv(rules, body, p);
    }
  }

  lemma NothingPruned()
    ensures Unpruned(START.view)
  {}

  /** One move of the tip, with the flush after it. */
  lemma MoveRuns(rules: Rules, body: Bodies, ix: Index, v: seq<BlockId>, w: seq<BlockId>) returns (mid: Node)
    requires ix.WellFormed() && Judged(rules, body, ix) && Undoable(body, ix) && OneRoot(ix)
    requires IsPath(ix, v) && AllValid(ix, v) && TipMove(ix, v, w)
    ensures IsPath(ix, w) && AllValid(ix, w)
    ensures Step(rules, NodeAt(body, v), mid) && Step(rules, mid, NodeAt(body, w))
  {
    hide Judged, Undoable, OneRoot, IsPath, NodeAt, AcceptedAt, Connects, Disconnects, Flushes, Inv, Unpruned;
    if w != [] && v == w[..|w| - 1] && IsPath(ix, w) && ix.valid(w[|w| - 1]) {
      TipVerdict(rules, body, ix, w);
      mid := ConnectRuns(rules, body, w);
    } else {
      var n := |v| - 1;
      PrefixPath(ix, v, n);
      PathActive(rules, body, ix, v[..n]);
      TipVerdict(rules, body, ix, v);
      assert ix.valid(v[n]);
      TipKept(body, ix, v);
      mid := DisconnectRuns(rules, body, v);
    }
  }

  lemma TipKept(body: Bodies, ix: Index, v: seq<BlockId>)
    requires ix.WellFormed() && Undoable(body, ix) && IsPath(ix, v) && AllValid(ix, v) && |v| >= 2
    ensures KeptAt(body, v)
  {
    hide KeptAt, Path;
    IsPathAt(ix, v, |v| - 1);
    ValidChainTip(ix, v);
    assert v[..|v|] == v;
  }

  ghost predicate Leads(rules: Rules, run: seq<Node>, n: Node) { Run(rules, run) && run[|run| - 1] == n }

  lemma TwoSteps(rules: Rules, run: seq<Node>, a: Node, mid: Node, b: Node)
    requires Leads(rules, run, a) && Step(rules, a, mid) && Step(rules, mid, b)
    ensures Leads(rules, run + [mid, b], b)
  {
    hide Step;
  }

  /** The moves of the tip, each followed by a flush, continue the run that led to the first chain. */
  lemma {:induction false} TraceRuns(
      rules: Rules, body: Bodies, ix: Index, trace: seq<seq<BlockId>>, from: seq<BlockId>, to: seq<BlockId>, run: seq<Node>)
    returns (longer: seq<Node>)
    requires ix.WellFormed() && Judged(rules, body, ix) && Undoable(body, ix) && OneRoot(ix)
    requires IsPath(ix, from) && AllValid(ix, from) && Moves(ix, trace, from, to) && Leads(rules, run, NodeAt(body, from))
    ensures IsPath(ix, to) && AllValid(ix, to) && run <= longer && Leads(rules, longer, NodeAt(body, to))
    decreases |trace|
  {
    hide Judged, Undoable, OneRoot, IsPath, NodeAt, Leads, TipMove, Step;
    if |trace| == 1 {
      longer := run;
    } else {
      var k := |trace| - 1;
      longer := TraceRuns(rules, body, ix, trace[..k], from, trace[k - 1], run);
      assert TipMove(ix, trace[k - 1], trace[k]);
      var mid := MoveRuns(rules, body, ix, trace[k - 1], to);
      TwoSteps(rules, longer, NodeAt(body, trace[k - 1]), mid, NodeAt(body, to));
      longer := longer + [mid, NodeAt(body, to)];
    }
  }

  // ---- the program's entry points ----

  /** Main result: choosing the best chain extends the run that made the coins. Afterwards the best valid chain is
      active, the coins are those of its blocks, and their total is bounded by what the chain may have issued. */
  method Activate(sel: Selector, ghost rules: Rules, ghost body: Bodies, ghost run: seq<Node>) returns (ghost longer: seq<Node>)
    requires sel.Valid() && Judged(rules, body, sel.ix) && Undoable(body, sel.ix) && OneRoot(sel.ix)
    requires Leads(rules, run, NodeAt(body, sel.active.vChain))
    modifies sel`failed, sel`candidates, sel.active, sel.mostWork
    ensures sel.Valid() && sel.BestIsActive()
    ensures run <= longer && Leads(rules, longer, NodeAt(body, sel.active.vChain))
    ensures CoinsRight(rules, body, sel.active.vChain)
  {
    hide Judged, Undoable, OneRoot, NodeAt, Leads, IsPath, AllValid, Moves, CoinsRight, FlagsSound, Chain.LimitsRight,
      Index.Ranked, Index.Accumulates;
    ghost var from := sel.active.vChain;
    ghost var trace := sel.ActivateBestChain();
    longer := TraceRuns(rules, body, sel.ix, trace, from, sel.active.vChain, run);
    RunCoins(rules, body, longer, sel.active.vChain);
  }

  /** A new block arrives, whatever its verdict. */
  method Receive(sel: Selector, b: BlockId, next: Index, ghost rules: Rules, ghost body: Bodies, ghost run: seq<Node>)
    returns (ghost longer: seq<Node>)
    requires sel.Valid() && Grows(sel.ix, next, b) && Judged(rules, body, next) && Undoable(body, next) && OneRoot(next)
    requires Leads(rules, run, NodeAt(body, sel.active.vChain))
    modifies sel, sel.active, sel.mostWork
    ensures sel.Valid() && sel.ix == next && sel.BestIsActive()
    ensures run <= longer && Leads(rules, longer, NodeAt(body, sel.active.vChain))
    ensures CoinsRight(rules, body, sel.active.vChain)
  {
    hide Judged, Undoable, OneRoot, NodeAt, Leads, IsPath, AllValid, Moves, CoinsRight, FlagsSound, Chain.LimitsRight,
      Index.Ranked, Index.Accumulates, Grows;
    ghost var from := sel.active.vChain;
    ChainStays(sel.ix, next, b, from);
    ghost var trace := sel.AddToBlockIndex(b, next);
    longer := TraceRuns(rules, body, next, trace, from, sel.active.vChain, run);
    RunCoins(rules, body, longer, sel.active.vChain);
  }

  lemma ChainStays(ix: Index, next: Index, b: BlockId, v: seq<BlockId>)
    requires ix.WellFormed() && Grows(ix, next, b) && IsPath(ix, v) && AllValid(ix, v)
    ensures next.WellFormed() && IsPath(next, v) && AllValid(next, v)
  {
    ChainGrows(ix, next, b, v);
  }

  /** The coins of the node agree with its blocks replayed from nothing, and hold no more than was issued. */
  ghost predicate CoinsRight(rules: Rules, body: Bodies, p: seq<BlockId>)
  {
    var n := NodeAt(body, p);
    Holds(body, n.chain, p) && Equiv(Replay(n.chain), n.view) && Total(n.view) <= Issued(rules, n.chain)
  }

  lemma RunCoins(rules: Rules, body: Bodies, run: seq<Node>, p: seq<BlockId>)
    requires Leads(rules, run, NodeAt(body, p))
    ensures CoinsRight(rules, body, p)
  {
    hide Run, NodeAt, Holds, Equiv, Total, Issued, Replay;
    NodeHolds(body, p);
    ViewIsReplayOfChain(rules, run);
    SupplyBounded(rules, run);
  }
}
