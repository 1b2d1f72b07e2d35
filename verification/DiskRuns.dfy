/** Runs of the node with its database and undo files in the loop: every record that is flushed and every undo
    entry goes through its stored form. The difference from the runs of `Reorg` is confined to negative versions. */
module DiskRuns {
  import opened Basics
  import opened CoinRecords
  import opened UtxoSet
  import opened UtxoUndo
  import opened Supply
  import opened Reorg
  import opened StoredUndo
  import CoinCodec

  /** What the database gives back: the records with something unspent, worn. */
  function FromDisk(u: Utxo): Utxo { map h | h in u && !u[h].IsPruned() :: Worn(u[h]) }

  /** A block is connected and its undo data written. */
  predicate DiskConnects(rules: Rules, a: Node, b: Node)
  {
    b.chain != [] &&
    var h := |a.chain|;
    var e := b.chain[|b.chain| - 1];
    && b.chain == a.chain + [e]
    && Accepts(rules, a.view, e.block, h, h == 0)
    && b.view == ConnectTxs(a.view, e.block.txs, h).0 && e.undos == StoredUndos(ConnectTxs(a.view, e.block.txs, h).1)
  }

  /** The coins are written out and, from then on, read from the database. */
  predicate DiskFlushes(a: Node, b: Node) { b.chain == a.chain && b.view == FromDisk(a.view) }

  predicate DiskStep(rules: Rules, a: Node, b: Node)
  {
    DiskConnects(rules, a, b) || Disconnects(a, b) || DiskFlushes(a, b)
  }

  predicate DiskRun(rules: Rules, states: seq<Node>)
  {
    && states != [] && states[0] == START
    && forall i | 0 < i < |states| :: DiskStep(rules, states[i - 1], states[i])
  }

  ghost predicate SameBlocks(c: seq<Entry>, d: seq<Entry>)
  {
    |c| == |d| && forall i | 0 <= i < |c| :: c[i].block == d[i].block
  }

  /** `b` is `a` as seen through the disk: the same blocks, undo data in stored form, records of `w` worn. */
  ghost predicate Mirrors(a: Node, b: Node, w: set<Txid>)
  {
    && |a.chain| == |b.chain| && Fades(a.view, b.view, w)
    && forall i | 0 <= i < |a.chain| :: a.chain[i].block == b.chain[i].block && b.chain[i].undos == StoredUndos(a.chain[i].undos)
  }

  // ---- everything written can be written ----

  lemma EquivStorable(u: Utxo, v: Utxo)
    requires Equiv(u, v) && AllStorable(u)
    ensures AllStorable(v)
  {
    forall h | h in v && !v[h].IsPruned() ensures StoredUndo.Storable(v[h])
    {
      assert Same(Lookup(u, h), Lookup(v, h));
    }
  }

  lemma {:induction false} ReplayStorable(rules: Rules, chain: seq<Entry>)
    requires ChainOk(rules, chain)
    ensures AllStorable(Replay(chain))
  {
    hide Equiv, ConnectTxs, Accepts, AllWellFormed, AllStorable, Connectable;
    if chain == [] {
      NoneStorable();
    } else {
      var h := |chain| - 1;
      var txs := chain[h].block.txs;
      ReplayStorable(rules, chain[..h]);
      var w :| AcceptedOn(rules, chain, w);
      EquivStorable(Replay(chain[..h]), w);
      AcceptedConnectable(rules, w, chain[h].block, h, h == 0);
      ConnectStorable(rules, w, txs, h);
      EquivSym(Replay(chain[..h]), w);
      ConnectEquiv(rules, w, Replay(chain[..h]), txs, h);
      EquivStorable(ConnectTxs(w, txs, h).0, Replay(chain));
    }
  }

  lemma NoneStorable()
    ensures AllStorable(map[])
  {}

  // ---- each step through the disk mirrors a step ----

  lemma AcceptsMirrored(rules: Rules, u: Utxo, v: Utxo, w: set<Txid>, block: Block, h: nat)
    requires AllWellFormed(u) && Fades(u, v, w) && Accepts(rules, v, block, h, h == 0)
    ensures Accepts(rules, u, block, h, h == 0)
    ensures var a, b := ConnectTxs(u, block.txs, h), ConnectTxs(v, block.txs, h);
            Fades(a.0, b.0, w - Ids(block.txs)) && StoredUndos(b.1) == StoredUndos(a.1)
  {
    hide *;
    AcceptsFades(rules, u, v, w, block, h, h == 0);
    AcceptedConnectable(rules, u, block, h, h == 0);
    ConnectableLoose(rules, u, block.txs, h);
    ConnectFades(rules, u, v, w, block.txs, h);
  }

  lemma ConnectMirrors(rules: Rules, a: Node, b: Node, w: set<Txid>, b': Node) returns (a': Node, w': set<Txid>)
    requires Inv(rules, a) && Mirrors(a, b, w) && DiskConnects(rules, b, b')
    ensures Connects(rules, a, a') && Mirrors(a', b', w')
  {
    hide ConnectTxs, Accepts, Fades, StoredUndos, Equiv, AllWellFormed, Ids, ChainOk, Replay;
    var h := |a.chain|;
    var block := b'.chain[h].block;
    AcceptsMirrored(rules, a.view, b.view, w, block, h);
    var (view, undos) := ConnectTxs(a.view, block.txs, h);
    a', w' := Node(view, a.chain + [Entry(block, undos)]), w - Ids(block.txs);
  }

  lemma ConnectableLoose(rules: Rules, u: Utxo, txs: seq<Tx>, height: int)
    requires Connectable(rules, u, txs, height)
    ensures Loose(u, txs) && TxsOk(rules, u, txs, height)
  {}

  lemma DisconnectMirrors(rules: Rules, a: Node, b: Node, w: set<Txid>, b': Node) returns (a': Node, w': set<Txid>)
    requires Inv(rules, a) && Mirrors(a, b, w) && Disconnects(b, b')
    ensures Disconnects(a, a') && Mirrors(a', b', w')
  {
    hide ConnectTxs, Accepts, Fades, StoredUndos, Equiv, AllWellFormed, Connectable, DisconnectTxs, Replay, UndoFits, BlockMarksIn, PrunedIds;
    var h := |a.chain| - 1;
    var e := a.chain[h];
    var v := UndoneOn(rules, a);
    var txs := e.block.txs;
    w' := w + PrunedIds(ConnectTxs(v, txs, h).0);
    PrunedAlready(ConnectTxs(v, txs, h).0, a.view, b.view, w);
    MarksPruned(rules, v, txs, h, w');
    assert txs[..|txs|] == txs;
    DisconnectFades(rules, v, a.view, b.view, w', txs, h, |txs|);
    a' := Node(DisconnectTxs(Undone(a.view, true), txs, e.undos, h, |txs|).coins, a.chain[..h]);
  }

  /** A view on which the tip was accepted, with what its undoing needs. */
  lemma UndoneOn(rules: Rules, a: Node) returns (v: Utxo)
    requires Inv(rules, a) && a.chain != []
    ensures var h, e := |a.chain| - 1, a.chain[|a.chain| - 1];
            && Connectable(rules, v, e.block.txs, h) && CheckBlock(e.block) && AllStorable(v)
            && e.undos == ConnectTxs(v, e.block.txs, h).1 && Equiv(ConnectTxs(v, e.block.txs, h).0, a.view)
  {
    hide Equiv, ConnectTxs, Accepts, AllWellFormed, Connectable, CheckBlock, AllStorable;
    var h := |a.chain| - 1;
    var e := a.chain[h];
    v :| AcceptedOn(rules, a.chain, v);
    AcceptedConnectable(rules, v, e.block, h, h == 0);
    ReplayStorable(rules, a.chain[..h]);
    EquivStorable(Replay(a.chain[..h]), v);
    EquivSym(Replay(a.chain[..h]), v);
    ConnectEquiv(rules, v, Replay(a.chain[..h]), e.block.txs, h);
    EquivTrans(ConnectTxs(v, e.block.txs, h).0, Replay(a.chain), a.view);
  }

  lemma PrunedAlready(x: Utxo, u: Utxo, v: Utxo, w: set<Txid>)
    requires Equiv(x, u) && Fades(u, v, w)
    ensures Fades(u, v, w + PrunedIds(x))
  {
    forall h | h in u && h in PrunedIds(x) ensures u[h].IsPruned()
    {
      assert Same(Lookup(x, h), Lookup(u, h));
    }
    hide Fades, Equiv, PrunedIds;
    FadesOn(u, v, w, w + PrunedIds(x));
  }

  lemma FlushMirrors(a: Node, b: Node, w: set<Txid>, b': Node) returns (a': Node)
    requires Mirrors(a, b, w) && DiskFlushes(b, b')
    ensures Flushes(a, a') && Mirrors(a', b', a.view.Keys)
  {
    a' := Node(Stored(a.view), a.chain);
    FlushFades(a.view, b.view, w);
    hide Fades, StoredUndos, Stored, FromDisk;
  }

  lemma FlushFades(u: Utxo, v: Utxo, w: set<Txid>)
    requires Fades(u, v, w)
    ensures Fades(Stored(u), FromDisk(v), u.Keys)
  {
    forall h: Txid ensures h in Stored(u) <==> h in FromDisk(v)
    {
      FadesLooks(u, v, w, h);
    }
    forall h | h in Stored(u) ensures FromDisk(v)[h] == Worn(u[h])
    {
      FadesLooks(u, v, w, h);
    }
  }

  lemma StepMirrors(rules: Rules, a: Node, b: Node, w: set<Txid>, b': Node) returns (a': Node, w': set<Txid>)
    requires Inv(rules, a) && Mirrors(a, b, w) && DiskStep(rules, b, b')
    ensures Step(rules, a, a') && Mirrors(a', b', w')
  {
    hide Inv, Mirrors, DiskConnects, Disconnects, DiskFlushes, Connects, Flushes;
    if DiskConnects(rules, b, b') {
      a', w' := ConnectMirrors(rules, a, b, w, b');
    } else if Disconnects(b, b') {
      a', w' := DisconnectMirrors(rules, a, b, w, b');
    } else {
      a' := FlushMirrors(a, b, w, b');
      w' := a.view.Keys;
    }
  }

  /** Main result: every run through the disk mirrors a run in memory, step by step: the same blocks are accepted
      and disconnected, and the views differ in negative versions only. */
  lemma {:induction false} DiskRunIsRun(rules: Rules, states: seq<Node>) returns (exact: seq<Node>, w: set<Txid>)
    requires DiskRun(rules, states)
    ensures Run(rules, exact) && |exact| == |states| && Mirrors(exact[|exact| - 1], states[|states| - 1], w)
  {
    hide Mirrors, Step, DiskStep, Inv;
    var k := |states| - 1;
    if k == 0 {
      exact, w := [START], {};
      assert Mirrors(START, START, {}) by { StartMirrors(); }
    } else {
      exact, w := DiskRunIsRun(rules, states[..k]);
      ViewIsReplayOfChain(rules, exact);
      assert DiskStep(rules, states[k - 1], states[k]);
      var next;
      next, w := StepMirrors(rules, exact[k - 1], states[k - 1], w, states[k]);
      exact := exact + [next];
    }
  }

  lemma StartMirrors()
    ensures Mirrors(START, START, {})
  {}

  // ---- what a run through the disk keeps ----

  /** `d` is `c`, or `c` with a negative version worn. */
  ghost predicate UpToVersion(c: Coins, d: Coins) { Same(c, d) || (c.version < 0 && Same(Worn(c), d)) }

  lemma MirrorAgrees(rules: Rules, a: Node, b: Node, w: set<Txid>, h: Txid)
    requires Inv(rules, a) && Mirrors(a, b, w)
    ensures UpToVersion(Lookup(Replay(b.chain), h), Lookup(b.view, h))
  {
    BlocksDetermineReplay(a.chain, b.chain);
    assert Same(Lookup(Replay(a.chain), h), Lookup(a.view, h));
    LookupFades(a.view, b.view, w, h);
    WornLooks(Lookup(a.view, h), h in w, Lookup(b.view, h));
    hide Replay, Lookup, Fades, Equiv, ChainOk;
  }

  lemma MirrorWellFormed(a: Node, b: Node, w: set<Txid>)
    requires AllWellFormed(a.view) && AllStorable(a.view) && Mirrors(a, b, w)
    ensures AllStorable(b.view) && forall h | h in b.view && !b.view[h].IsPruned() :: b.view[h].WellFormed()
  {
    forall h | h in b.view && !b.view[h].IsPruned() ensures b.view[h].WellFormed() && StoredUndo.Storable(b.view[h])
    {
      FadesLooks(a.view, b.view, w, h);
    }
  }

  /** Main result: after every run through the disk, each record is that of the active chain replayed in memory,
      except that a negative version may be worn. */
  lemma DiskViewAgrees(rules: Rules, states: seq<Node>, h: Txid)
    requires DiskRun(rules, states)
    ensures var n := states[|states| - 1]; UpToVersion(Lookup(Replay(n.chain), h), Lookup(n.view, h))
  {
    hide Mirrors, Inv, UpToVersion, Replay, Lookup;
    var exact, w := DiskRunIsRun(rules, states);
    ViewIsReplayOfChain(rules, exact);
    MirrorAgrees(rules, exact[|exact| - 1], states[|states| - 1], w, h);
  }

  /** Main result: after every run through the disk, on the flushed view, a block gets the verdict it gets on the
      coins of the active chain replayed in memory: worn versions never change it. */
  lemma DiskAccepts(rules: Rules, states: seq<Node>, block: Block, height: int, genesis: bool)
    requires DiskRun(rules, states)
    ensures var n := states[|states| - 1];
            Accepts(rules, FromDisk(n.view), block, height, genesis) <==> Accepts(rules, Stored(Replay(n.chain)), block, height, genesis)
  {
    assert states != [];
    hide *;
    var exact, w := DiskRunIsRun(rules, states);
    ViewIsReplayOfChain(rules, exact);
    var a, n := exact[|exact| - 1], states[|states| - 1];
    MirrorStored(rules, a, n, w);
    AcceptsFades(rules, Stored(Replay(n.chain)), FromDisk(n.view), a.view.Keys, block, height, genesis);
  }

  lemma MirrorStored(rules: Rules, a: Node, b: Node, w: set<Txid>)
    requires Inv(rules, a) && Mirrors(a, b, w)
    ensures AllWellFormed(Stored(Replay(b.chain))) && Fades(Stored(Replay(b.chain)), FromDisk(b.view), a.view.Keys)
  {
    hide Fades, FromDisk, Replay, ChainOk, AllWellFormed, Equiv, Stored;
    BlocksDetermineReplay(a.chain, b.chain);
    StoredSame(Replay(a.chain), a.view);
    StoredWellFormed(a.view);
    FlushFades(a.view, b.view, w);
  }

  lemma StoredWellFormed(u: Utxo)
    requires AllWellFormed(u)
    ensures AllWellFormed(Stored(u))
  {}

  lemma {:induction false} TotalFades(u: Utxo, v: Utxo, w: set<Txid>)
    requires Fades(u, v, w)
    ensures Total(u) == Total(v)
    decreases |u|
  {
    if u.Keys == {} {
      assert Total(u) == 0 && Total(v) == 0;
    } else {
      var h :| h in u.Keys;
      TotalTakeOut(u, h);
      TotalTakeOut(v, h);
      WornLooks(u[h], h in w, v[h]);
      if u[h].IsPruned() {
        NothingUnspent(u[h].vout);
        NothingUnspent(v[h].vout);
      }
      hide Total, Unspent, WornIf;
      TotalFades(u - {h}, v - {h}, w);
    }
  }

  lemma {:induction false} SameIssued(rules: Rules, c: seq<Entry>, d: seq<Entry>)
    requires |c| == |d| && forall i | 0 <= i < |c| :: c[i].block == d[i].block
    ensures Issued(rules, c) == Issued(rules, d)
  {
    if c != [] { SameIssued(rules, c[..|c| - 1], d[..|d| - 1]); }
  }

  /** Main result: no run through the disk has more unspent value than its active chain was allowed to issue. */
  lemma DiskSupplyBounded(rules: Rules, states: seq<Node>)
    requires DiskRun(rules, states)
    ensures var n := states[|states| - 1]; Total(n.view) <= Issued(rules, n.chain)
  {
    hide Total, Fades, Issued, StoredUndos;
    var exact, w := DiskRunIsRun(rules, states);
    SupplyBounded(rules, exact);
    var a, n := exact[|exact| - 1], states[|states| - 1];
    TotalFades(a.view, n.view, w);
    SameIssued(rules, a.chain, n.chain);
  }

  /** Main result: two nodes of any two runs through the disk whose coins come from the database and that have the
      same active blocks are the same node, undo data included: what the disk loses, it loses the same way. */
  lemma DiskSameBlocksSameNode(rules: Rules, s: seq<Node>, t: seq<Node>)
    requires DiskRun(rules, s) && DiskRun(rules, t)
    requires var a, b := s[|s| - 1], t[|t| - 1];
             SameBlocks(a.chain, b.chain) && a.view == FromDisk(a.view) && b.view == FromDisk(b.view)
    ensures s[|s| - 1] == t[|t| - 1]
  {
    hide Inv, Fades, Replay, Stored, FromDisk, StoredUndos, ChainOk, Unpruned, Equiv;
    var a, b := s[|s| - 1], t[|t| - 1];
    var x, w := DiskRunIsRun(rules, s);
    var y, z := DiskRunIsRun(rules, t);
    ViewIsReplayOfChain(rules, x);
    ViewIsReplayOfChain(rules, y);
    var p, q := x[|x| - 1], y[|y| - 1];
    MirrorStored(rules, p, a, w);
    MirrorStored(rules, q, b, z);
    BlocksDetermineReplay(a.chain, b.chain);
    FullyWorn(Stored(Replay(a.chain)), a.view, p.view.Keys);
    FullyWorn(Stored(Replay(b.chain)), b.view, q.view.Keys);
    SameChains(rules, p, q);
  }

  lemma FullyWorn(u: Utxo, v: Utxo, w: set<Txid>)
    requires Fades(u, v, w) && v == FromDisk(v)
    ensures v == map h | h in u :: Worn(u[h])
  {
    forall h | h in v ensures v[h] == Worn(u[h])
    {
      FadesLooks(u, v, w, h);
      assert v[h] == FromDisk(v)[h];
    }
  }

  lemma SameChains(rules: Rules, p: Node, q: Node)
    requires Inv(rules, p) && Inv(rules, q) && SameBlocks(p.chain, q.chain)
    ensures p.chain == q.chain
  {
    SameUndos(rules, p.chain, q.chain);
  }

  // ---- the stored forms are what the codec makes of records and entries ----

  lemma RecordReadsBack(k: CoinCodec.ScriptCodec, c: Coins, rest: seq<Byte>)
    requires CoinCodec.Faithful(k) && !c.IsPruned() && c.WellFormed() && StoredUndo.Storable(c)
    ensures CoinCodec.Writable(c) && CoinCodec.Unser(k, CoinCodec.Ser(k, c) + rest) == Some((Worn(c), rest))
  {
    CoinCodec.RecordRoundTrip(k, c, rest);
    hide CoinCodec.Ser, CoinCodec.Unser, CoinCodec.Faithful;
    assert CoinCodec.Blank(c.vout) == c.vout;
    CoinCodec.TrimTrimmed(c.vout);
  }

  /** In every reachable state, what a flush leaves of a record is what is read after writing it. */
  lemma DiskIsCodec(k: CoinCodec.ScriptCodec, rules: Rules, states: seq<Node>, h: Txid, rest: seq<Byte>)
    requires CoinCodec.Faithful(k) && DiskRun(rules, states) && h in FromDisk(states[|states| - 1].view)
    ensures var u := states[|states| - 1].view;
            CoinCodec.Writable(u[h]) && CoinCodec.Unser(k, CoinCodec.Ser(k, u[h]) + rest) == Some((FromDisk(u)[h], rest))
  {
    hide CoinCodec.Ser, CoinCodec.Unser, CoinCodec.Faithful, CoinCodec.Writable, Mirrors, AllStorable, ChainOk, Replay, Equiv;
    var exact, w := DiskRunIsRun(rules, states);
    ViewIsReplayOfChain(rules, exact);
    var a := exact[|exact| - 1];
    ReplayStorable(rules, a.chain);
    EquivStorable(Replay(a.chain), a.view);
    MirrorWellFormed(a, states[|states| - 1], w);
    StorableAt(states[|states| - 1].view, h);
    RecordReadsBack(k, states[|states| - 1].view[h], rest);
  }

  lemma StorableAt(u: Utxo, h: Txid)
    requires AllStorable(u) && h in u && !u[h].IsPruned()
    ensures StoredUndo.Storable(u[h])
  {}

  /** In every reachable state, the undo data kept for an accepted block is what is read after writing it. */
  lemma DiskUndoIsCodec(
      k: CoinCodec.ScriptCodec, rules: Rules, states: seq<Node>, block: Block, i: nat, j: nat, rest: seq<Byte>)
    requires CoinCodec.Faithful(k) && DiskRun(rules, states)
    requires var n := states[|states| - 1]; Accepts(rules, n.view, block, |n.chain|, |n.chain| == 0)
    requires var undos := ConnectTxs(states[|states| - 1].view, block.txs, |states[|states| - 1].chain|).1;
             i < |undos| && j < |undos[i]|
    ensures var undos := ConnectTxs(states[|states| - 1].view, block.txs, |states[|states| - 1].chain|).1;
            && StorableEntry(undos[i][j])
            && CoinCodec.UnserUndo(k, CoinCodec.SerUndo(k, undos[i][j]) + rest) == Some((StoredUndos(undos)[i][j], rest))
  {
    hide CoinCodec.SerUndo, CoinCodec.UnserUndo, CoinCodec.Faithful, Fades, AllStorable, ChainOk, Replay, Equiv, ConnectTxs, Accepts,
      AllWellFormed, Connectable;
    var exact, w := DiskRunIsRun(rules, states);
    ViewIsReplayOfChain(rules, exact);
    var a, n := exact[|exact| - 1], states[|states| - 1];
    var h := |n.chain|;
    ReplayStorable(rules, a.chain);
    EquivStorable(Replay(a.chain), a.view);
    AcceptsMirrored(rules, a.view, n.view, w, block, h);
    AcceptedConnectable(rules, a.view, block, h, h == 0);
    ConnectStorable(rules, a.view, block.txs, h);
    var undos := ConnectTxs(n.view, block.txs, h).1;
    SameStoredEntry(ConnectTxs(a.view, block.txs, h).1, undos, i, j);
    CoinCodec.UndoReadsBack(k, undos[i][j], rest);
  }

  lemma SameStoredEntry(x: seq<seq<TxInUndo>>, y: seq<seq<TxInUndo>>, i: nat, j: nat)
    requires StoredUndos(x) == StoredUndos(y) && AllEntriesStorable(x) && i < |y| && j < |y[i]|
    ensures StorableEntry(y[i][j]) && StoredUndos(y)[i][j] == CoinCodec.NormalUndo(y[i][j])
  {
    assert |x| == |y| && StoredUndos(x)[i] == StoredUndos(y)[i];
    assert |x[i]| == |y[i]| && StoredEntries(x[i])[j] == StoredEntries(y[i])[j];
    assert StorableEntry(x[i][j]);
  }
}
