/** Runs of the node: blocks are connected at the tip and disconnected from it, and the coins are written to
    the database, in any order (`ConnectTip`, `DisconnectTip`, `WriteChainState`). After every run the coins
    are those of the active chain. */
module Reorg {
  import opened CoinRecords
  import opened UtxoSet
  import opened UtxoUndo
  import opened Supply

  /** A connected block with the undo data written for it. */
  datatype Entry = Entry(block: Block, undos: seq<seq<TxInUndo>>)

  datatype Node = Node(view: Utxo, chain: seq<Entry>)

  const START: Node := Node(map[], [])

  /** A block accepted on top of the current tip; the first one is the genesis block. */
  predicate Connects(rules: Rules, a: Node, b: Node)
  {
    b.chain != [] &&
    var h := |a.chain|;
    var e := b.chain[|b.chain| - 1];
    && b.chain == a.chain + [e]
    && Accepts(rules, a.view, e.block, h, h == 0)
    && (b.view, e.undos) == ConnectTxs(a.view, e.block.txs, h)
  }

  /** The tip is disconnected and found clean; the genesis block has no undo data. */
  predicate Disconnects(a: Node, b: Node)
  {
    |a.chain| >= 2 &&
    var h := |a.chain| - 1;
    var e := a.chain[h];
    && UndoFits(e.block.txs, e.undos)
    && b.chain == a.chain[..h]
    && DisconnectTxs(Undone(a.view, true), e.block.txs, e.undos, h, |e.block.txs|) == Undone(b.view, true)
  }

  /** What the database keeps: fully spent records are erased. */
  function Stored(u: Utxo): Utxo { map h | h in u && !u[h].IsPruned() :: u[h] }

  /** The coins are flushed to the database, which may happen after any step. */
  predicate Flushes(a: Node, b: Node) { b.chain == a.chain && b.view == Stored(a.view) }

  predicate Step(rules: Rules, a: Node, b: Node) { Connects(rules, a, b) || Disconnects(a, b) || Flushes(a, b) }

  predicate Run(rules: Rules, states: seq<Node>)
  {
    && states != [] && states[0] == START
    && forall i | 0 < i < |states| :: Step(rules, states[i - 1], states[i])
  }

  /** The coins obtained by connecting the blocks of the chain to an empty set. */
  function Replay(chain: seq<Entry>): Utxo
  {
    if chain == [] then map[]
    else ConnectTxs(Replay(chain[..|chain| - 1]), chain[|chain| - 1].block.txs, |chain| - 1).0
  }

  /** The view on which a block was accepted agreed with the chain below it. */
  ghost predicate AcceptedOn(rules: Rules, chain: seq<Entry>, w: Utxo)
    requires chain != []
  {
    var h := |chain| - 1;
    var e := chain[h];
    && AllWellFormed(w) && Equiv(Replay(chain[..h]), w)
    && Accepts(rules, w, e.block, h, h == 0)
    && e.undos == ConnectTxs(w, e.block.txs, h).1
  }

  ghost predicate ChainOk(rules: Rules, chain: seq<Entry>)
  {
    chain == [] || (ChainOk(rules, chain[..|chain| - 1]) && exists w :: AcceptedOn(rules, chain, w))
  }

  ghost predicate Inv(rules: Rules, n: Node)
  {
    AllWellFormed(n.view) && Equiv(Replay(n.chain), n.view) && ChainOk(rules, n.chain)
  }

  // ---- connecting respects agreement of views ----

  lemma EquivRefl(u: Utxo)
    ensures Equiv(u, u)
  {}

  lemma EquivSym(u: Utxo, v: Utxo)
    requires Equiv(u, v)
    ensures Equiv(v, u)
  {
    forall h: Txid ensures Same(Lookup(v, h), Lookup(u, h)) { assert Same(Lookup(u, h), Lookup(v, h)); }
  }

  lemma EquivTrans(u: Utxo, v: Utxo, w: Utxo)
    requires Equiv(u, v) && Equiv(v, w)
    ensures Equiv(u, w)
  {
    forall h: Txid ensures Same(Lookup(u, h), Lookup(w, h))
    {
      assert Same(Lookup(u, h), Lookup(v, h)) && Same(Lookup(v, h), Lookup(w, h));
    }
  }

  lemma SpendInputEquiv(u: Utxo, v: Utxo, out: OutPoint)
    requires Equiv(u, v) && HasOutput(u, out)
    ensures HasOutput(v, out) && Equiv(SpendInput(u, out).0, SpendInput(v, out).0)
    ensures SpendInput(u, out).1 == SpendInput(v, out).1
  {
    assert Same(Lookup(u, out.hash), Lookup(v, out.hash));
    var u', v' := SpendInput(u, out).0, SpendInput(v, out).0;
    forall h: Txid ensures Same(Lookup(u', h), Lookup(v', h)) { assert Same(Lookup(u, h), Lookup(v, h)); }
  }

  lemma {:induction false} SpendAllEquiv(u: Utxo, v: Utxo, vin: seq<OutPoint>)
    requires Equiv(u, v) && AllWellFormed(u) && forall i | 0 <= i < |vin| :: HasOutput(u, vin[i])
    requires forall i, j | 0 <= i < j < |vin| :: vin[i] != vin[j]
    ensures Equiv(SpendAll(u, vin).0, SpendAll(v, vin).0)
  {
    hide Equiv, HasOutput, SpendInput;
    if vin != [] {
      var k := |vin| - 1;
      SpendAllEquiv(u, v, vin[..k]);
      SpendAllRemoves(u, vin[..k]);
      assert HasOutput(u, vin[k]) && vin[k] !in vin[..k];
      SpendInputEquiv(SpendAll(u, vin[..k]).0, SpendAll(v, vin[..k]).0, vin[k]);
    }
  }

  lemma UpdateEquiv(u: Utxo, v: Utxo, id: Txid, c: Coins)
    requires Equiv(u, v)
    ensures Equiv(u[id := c], v[id := c])
  {
    var u', v' := u[id := c], v[id := c];
    forall h: Txid ensures Same(Lookup(u', h), Lookup(v', h)) { assert Same(Lookup(u, h), Lookup(v, h)); }
  }

  lemma {:induction false} ConnectEquiv(rules: Rules, u: Utxo, v: Utxo, txs: seq<Tx>, height: int)
    requires Connectable(rules, u, txs, height) && Equiv(u, v)
    ensures Equiv(ConnectTxs(u, txs, height).0, ConnectTxs(v, txs, height).0)
  {
    hide Equiv, CheckTransaction, CheckInputs, AllWellFormed, CoinsOf;
    if txs != [] {
      var k := |txs| - 1;
      var tx := txs[k];
      PrefixConnectable(rules, u, txs, height, k + 1);
      ConnectEquiv(rules, u, v, txs[..k], height);
      ConnectKeeps(rules, u, txs[..k], height);
      var u1, v1 := ConnectTxs(u, txs[..k], height).0, ConnectTxs(v, txs[..k], height).0;
      CheckedInputsPresent(rules, u1, tx, height);
      assert CheckTransaction(txs[k]);
      if tx.IsCoinBase() {
        UpdateEquiv(u1, v1, tx.id, CoinsOf(tx, height));
      } else {
        CheckedPlain(tx);
        SpendAllEquiv(u1, v1, tx.vin);
        UpdateEquiv(SpendAll(u1, tx.vin).0, SpendAll(v1, tx.vin).0, tx.id, CoinsOf(tx, height));
      }
    }
  }

  // ---- every step keeps the invariant ----

  lemma AcceptedConnectable(rules: Rules, u: Utxo, block: Block, height: int, genesis: bool)
    requires AllWellFormed(u) && Accepts(rules, u, block, height, genesis)
    ensures Connectable(rules, u, block.txs, height) && CheckBlock(block)
  {}

  lemma ConnectKeepsInv(rules: Rules, a: Node, b: Node)
    requires Inv(rules, a) && Connects(rules, a, b)
    ensures Inv(rules, b)
  {
    hide Equiv, ConnectTxs, Accepts, AllWellFormed;
    var h := |a.chain|;
    var e := b.chain[h];
    assert b.chain[..h] == a.chain;
    AcceptedConnectable(rules, a.view, e.block, h, h == 0);
    ConnectKeeps(rules, a.view, e.block.txs, h);
    EquivSym(Replay(a.chain), a.view);
    ConnectEquiv(rules, a.view, Replay(a.chain), e.block.txs, h);
    EquivSym(b.view, Replay(b.chain));
    assert AcceptedOn(rules, b.chain, a.view);
  }

  lemma DisconnectKeepsInv(rules: Rules, a: Node, b: Node)
    requires Inv(rules, a) && Disconnects(a, b)
    ensures Inv(rules, b)
  {
    hide Equiv, ConnectTxs, Accepts, AllWellFormed, DisconnectTxs, Connectable;
    var h := |a.chain| - 1;
    var e := a.chain[h];
    var w :| AcceptedOn(rules, a.chain, w);
    AcceptedConnectable(rules, w, e.block, h, h == 0);
    EquivSym(Replay(b.chain), w);
    ConnectEquiv(rules, w, Replay(b.chain), e.block.txs, h);
    EquivTrans(ConnectTxs(w, e.block.txs, h).0, Replay(a.chain), a.view);
    assert e.block.txs[..|e.block.txs|] == e.block.txs;
    DisconnectInverts(rules, w, a.view, e.block.txs, h, true, |e.block.txs|);
    EquivTrans(Replay(b.chain), w, b.view);
  }

  lemma StoredEquiv(u: Utxo)
    ensures Equiv(u, Stored(u))
  {
    forall h: Txid ensures Same(Lookup(u, h), Lookup(Stored(u), h)) {}
  }

  lemma FlushKeepsInv(rules: Rules, a: Node, b: Node)
    requires Inv(rules, a) && Flushes(a, b)
    ensures Inv(rules, b)
  {
    StoredEquiv(a.view);
    EquivTrans(Replay(a.chain), a.view, b.view);
    hide Equiv, ChainOk, Replay;
  }

  lemma StepKeepsInv(rules: Rules, a: Node, b: Node)
    requires Inv(rules, a) && Step(rules, a, b)
    ensures Inv(rules, b)
  {
    hide Inv, Connects, Disconnects, Flushes;
    if Connects(rules, a, b) {
      ConnectKeepsInv(rules, a, b);
    } else if Disconnects(a, b) {
      DisconnectKeepsInv(rules, a, b);
    } else {
      FlushKeepsInv(rules, a, b);
    }
  }

  /** Main result: after any run of connects, disconnects and flushes the view agrees with the coins of the
      active chain, computed from nothing. */
  lemma {:induction false} ViewIsReplayOfChain(rules: Rules, states: seq<Node>)
    requires Run(rules, states)
    ensures var n := states[|states| - 1]; Inv(rules, n) && Equiv(Replay(n.chain), n.view)
  {
    hide Inv, Step;
    var k := |states| - 1;
    if k == 0 {
      assert Inv(rules, START) by { StartInv(rules); }
    } else {
      ViewIsReplayOfChain(rules, states[..k]);
      assert states[..k][k - 1] == states[k - 1];
      StepKeepsInv(rules, states[k - 1], states[k]);
    }
    assert Equiv(Replay(states[k].chain), states[k].view) by { InvAgrees(rules, states[k]); }
  }

  lemma StartInv(rules: Rules)
    ensures Inv(rules, START)
  {
    EquivRefl(map[]);
  }

  lemma InvAgrees(rules: Rules, n: Node)
    requires Inv(rules, n)
    ensures Equiv(Replay(n.chain), n.view)
  {}

  // ---- going back to an earlier state, and forward again ----

  ghost predicate Unpruned(u: Utxo) { forall h | h in u :: !u[h].IsPruned() }

  lemma EquivUnpruned(u: Utxo, v: Utxo)
    requires Equiv(u, v) && Unpruned(u) && Unpruned(v)
    ensures u == v
  {
    forall h: Txid ensures (h in u <==> h in v) && (h in u && h in v ==> u[h] == v[h])
    {
      assert Same(Lookup(u, h), Lookup(v, h));
    }
  }

  lemma StoredUnpruned(u: Utxo)
    ensures Unpruned(Stored(u))
  {}

  /** Whatever happened in between, flushed nodes with the same blocks have the same coins. */
  lemma StoredSame(u: Utxo, v: Utxo)
    requires Equiv(u, v)
    ensures Stored(u) == Stored(v)
  {
    forall h: Txid ensures (h in Stored(u) <==> h in Stored(v)) && (h in Stored(u) ==> u[h] == v[h])
    {
      assert Same(Lookup(u, h), Lookup(v, h));
    }
  }

  lemma StoredIs(u: Utxo)
    requires Unpruned(u)
    ensures Stored(u) == u
  {}

  lemma InvParts(rules: Rules, n: Node)
    requires Inv(rules, n)
    ensures AllWellFormed(n.view) && Equiv(Replay(n.chain), n.view) && ChainOk(rules, n.chain)
  {}

  lemma {:induction false} BlocksDetermineReplay(c: seq<Entry>, d: seq<Entry>)
    requires |c| == |d| && forall i | 0 <= i < |c| :: c[i].block == d[i].block
    ensures Replay(c) == Replay(d)
  {
    if c != [] { BlocksDetermineReplay(c[..|c| - 1], d[..|d| - 1]); }
  }

  /** Main result: two flushed nodes of any two runs that have the same active blocks are the same node: same
      coins, and for every block the same undo data. So a block that is disconnected and connected again may
      keep the undo data of its first connection, as the program does. */
  lemma SameBlocksSameNode(rules: Rules, a: Node, b: Node)
    requires Inv(rules, a) && Inv(rules, b) && Unpruned(a.view) && Unpruned(b.view)
    requires |a.chain| == |b.chain| && forall i | 0 <= i < |a.chain| :: a.chain[i].block == b.chain[i].block
    ensures a == b
  {
    BlocksDetermineReplay(a.chain, b.chain);
    EquivSym(Replay(a.chain), a.view);
    EquivTrans(a.view, Replay(a.chain), b.view);
    EquivUnpruned(a.view, b.view);
    SameUndos(rules, a.chain, b.chain);
  }

  lemma {:induction false} SameUndos(rules: Rules, c: seq<Entry>, d: seq<Entry>)
    requires ChainOk(rules, c) && ChainOk(rules, d)
    requires |c| == |d| && forall i | 0 <= i < |c| :: c[i].block == d[i].block
    ensures c == d
  {
    hide Equiv, Replay, Accepts, AllWellFormed, ConnectTxs, Connectable;
    if c != [] {
      var h := |c| - 1;
      SameUndos(rules, c[..h], d[..h]);
      var v :| AcceptedOn(rules, c, v);
      var w :| AcceptedOn(rules, d, w);
      EquivSym(Replay(c[..h]), v);
      EquivTrans(v, Replay(c[..h]), w);
      AcceptedConnectable(rules, v, c[h].block, h, h == 0);
      ConnectEquivUndo(rules, v, w, c[h].block.txs, h);
      assert c == c[..h] + [c[h]] && d == d[..h] + [d[h]];
    }
  }

  /** Connecting writes the same undo data on views that agree. */
  lemma {:induction false} ConnectEquivUndo(rules: Rules, u: Utxo, v: Utxo, txs: seq<Tx>, height: int)
    requires Connectable(rules, u, txs, height) && Equiv(u, v)
    ensures ConnectTxs(u, txs, height).1 == ConnectTxs(v, txs, height).1
  {
    hide Equiv, CheckTransaction, CheckInputs, AllWellFormed, CoinsOf, SpendAll;
    if txs != [] {
      var k := |txs| - 1;
      var tx := txs[k];
      PrefixConnectable(rules, u, txs, height, k + 1);
      ConnectEquivUndo(rules, u, v, txs[..k], height);
      ConnectEquiv(rules, u, v, txs[..k], height);
      ConnectKeeps(rules, u, txs[..k], height);
      var u1, v1 := ConnectTxs(u, txs[..k], height).0, ConnectTxs(v, txs[..k], height).0;
      CheckedInputsPresent(rules, u1, tx, height);
      assert CheckTransaction(txs[k]);
      if !tx.IsCoinBase() {
        CheckedPlain(tx);
        SpendAllEquivUndo(u1, v1, tx.vin);
      }
    }
  }

  lemma {:induction false} SpendAllEquivUndo(u: Utxo, v: Utxo, vin: seq<OutPoint>)
    requires Equiv(u, v) && AllWellFormed(u) && forall i | 0 <= i < |vin| :: HasOutput(u, vin[i])
    requires forall i, j | 0 <= i < j < |vin| :: vin[i] != vin[j]
    ensures SpendAll(u, vin).1 == SpendAll(v, vin).1
  {
    hide Equiv, HasOutput, SpendInput;
    if vin != [] {
      var k := |vin| - 1;
      SpendAllEquivUndo(u, v, vin[..k]);
      SpendAllEquiv(u, v, vin[..k]);
      SpendAllRemoves(u, vin[..k]);
      assert HasOutput(u, vin[k]) && vin[k] !in vin[..k];
      SameUndoEntry(SpendAll(u, vin[..k]).0, SpendAll(v, vin[..k]).0, vin[k]);
    }
  }

  lemma SameUndoEntry(u: Utxo, v: Utxo, out: OutPoint)
    requires Equiv(u, v) && HasOutput(u, out)
    ensures SpendInput(u, out).1 == SpendInput(v, out).1
  {
    assert Same(Lookup(u, out.hash), Lookup(v, out.hash));
  }

  /** On the flushed view, undoing the block of `UtxoUndo.HeightZeroRecordIsLost` also brings the record back
      with the wrong coinbase flag and version, so the original view is not restored. */
  lemma FlushedRecordComesBackWrong()
    ensures var (v, undos) := ConnectTxs(VIEW0, BLOCK120.txs, 120);
            && UndoFits(BLOCK120.txs, undos)
            && var r := DisconnectTxs(Undone(Stored(v), true), BLOCK120.txs, undos, 120, 2);
               !r.clean && Lookup(r.coins, 7) == Coins(false, [PAYOUT], 0, 0) && !Equiv(VIEW0, r.coins)
  {
    hide ConnectTxs, CoinsOf, Equiv, RemoveOutputs, RestoreInput, RestoreAll, CheckBlock, Accepts, Lookup;
    var (v, undos) := ConnectTxs(VIEW0, BLOCK120.txs, 120);
    HeightZeroRecordIsLost();
    Connecting120(GENESIS);
    var txs, undo, w := BLOCK120.txs, TxInUndo(PAYOUT, true, 0, 1), Undone(Stored(v), true);
    var s1 := RemoveOutputs(w, SPENDER, 120);
    RemovesOnly(w, SPENDER, 120, 7);
    RestoreOnly(s1, OutPoint(7, 0), undo);
    RestoresWrong(s1);
    var s2 := RestoreInput(s1, OutPoint(7, 0), undo);
    assert DisconnectTx(w, txs, undos, 120, 1) == s2;
    RemovesOnly(s2, REWARD, 120, 7);
    var r := RemoveOutputs(s2, REWARD, 120);
    assert DisconnectTx(s2, txs, undos, 120, 0) == r;
    assert DisconnectTxs(s2, txs, undos, 120, 1) == r;
    Differs(r.coins);
  }

  lemma RemovesOnly(s: Undone, tx: Tx, height: int, h: Txid)
    requires h != tx.id
    ensures var r := RemoveOutputs(s, tx, height);
            (h in r.coins <==> h in s.coins) && Lookup(r.coins, h) == Lookup(s.coins, h) && (!s.clean ==> !r.clean)
  {
    hide Cleared, CoinsOf, Same;
  }

  lemma RestoresWrong(s: Undone)
    requires 7 !in s.coins
    ensures var r := RestoreInput(s, OutPoint(7, 0), TxInUndo(PAYOUT, true, 0, 1));
            Lookup(r.coins, 7) == Coins(false, [PAYOUT], 0, 0) && !r.clean
  {
    assert Resized([], 1)[0 := PAYOUT] == [PAYOUT];
  }

  lemma RestoreOnly(s: Undone, out: OutPoint, undo: TxInUndo)
    ensures RestoreAll(s, [out], [undo]) == RestoreInput(s, out, undo)
  {
    hide RestoreInput;
    assert [out][..0] == [] && [undo][..0] == [];
  }

  lemma Differs(u: Utxo)
    requires Lookup(u, 7) == Coins(false, [PAYOUT], 0, 0)
    ensures !Equiv(VIEW0, u)
  {
    assert !GENESIS.vout[0].IsNull();
    assert !Same(Lookup(VIEW0, 7), Lookup(u, 7));
  }

  /** After a flush the only ids refused are those with something unspent: fully spent ones may come again. */
  lemma FlushedAllowsSpentIds(u: Utxo, txs: seq<Tx>)
    ensures NoOverwrite(Stored(u), txs) <==> forall i | 0 <= i < |txs| :: Lookup(u, txs[i].id).IsPruned()
  {}

  /** On a flushed node, connecting a block, disconnecting it cleanly and flushing leads back to exactly the
      same node, which therefore accepts the block again. */
  lemma ReconnectsAfterFlush(rules: Rules, a: Node, b: Node, c: Node, d: Node)
    requires Inv(rules, a) && Unpruned(a.view)
    requires Connects(rules, a, b) && Disconnects(b, c) && Flushes(c, d)
    ensures d == a && Connects(rules, d, b)
  {
    hide Inv, Connects, Accepts, ConnectTxs, DisconnectTxs, Equiv;
    ConnectKeepsInv(rules, a, b);
    DisconnectKeepsInv(rules, b, c);
    FlushKeepsInv(rules, c, d);
    StoredUnpruned(c.view);
    BackToChain(rules, a, b, c);
    SameBlocksSameNode(rules, a, d);
  }

  lemma BackToChain(rules: Rules, a: Node, b: Node, c: Node)
    requires Connects(rules, a, b) && Disconnects(b, c)
    ensures c.chain == a.chain
  {
    hide Accepts, ConnectTxs, DisconnectTxs;
    assert b.chain[..|a.chain|] == a.chain;
  }

  // ---- supply ----

  /** What the chain may have issued: the genesis payout and a subsidy for each later block. */
  function Issued(rules: Rules, chain: seq<Entry>): int
  {
    if chain == [] then 0
    else
      var h := |chain| - 1;
      var b := chain[h].block;
      Issued(rules, chain[..h])
      + (if h == 0 then (if b.txs == [] then 0 else ValueOut(b.txs[0].vout)) else rules.subsidy(h, b.pok))
  }

  lemma {:induction false} ReplayBounded(rules: Rules, chain: seq<Entry>)
    requires ChainOk(rules, chain)
    ensures Total(Replay(chain)) <= Issued(rules, chain)
  {
    hide Total, ConnectTxs, Equiv, Accepts, Connectable, AllWellFormed;
    if chain == [] {
      assert Total(map[]) == 0 by { EmptyTotal(); }
    } else {
      var h := |chain| - 1;
      var b := chain[h].block;
      var below := Replay(chain[..h]);
      ReplayBounded(rules, chain[..h]);
      var w :| AcceptedOn(rules, chain, w);
      EquivTotal(below, w);
      AcceptedConnectable(rules, w, b, h, h == 0);
      EquivSym(below, w);
      ConnectEquiv(rules, w, below, b.txs, h);
      EquivTotal(ConnectTxs(w, b.txs, h).0, Replay(chain));
      BlockConservesValue(rules, w, b, h, h == 0);
      if h == 0 {
        AcceptedTxsOk(rules, w, b, h, true);
        FeesNonNegative(rules, w, b.txs, h);
      }
    }
  }

  lemma EmptyTotal()
    ensures Total(map[]) == 0
  {}

  lemma AcceptedTxsOk(rules: Rules, u: Utxo, block: Block, height: int, genesis: bool)
    requires Accepts(rules, u, block, height, genesis)
    ensures TxsOk(rules, u, block.txs, height) && block.txs != []
  {}

  lemma {:induction false} FeesNonNegative(rules: Rules, u: Utxo, txs: seq<Tx>, height: int)
    requires TxsOk(rules, u, txs, height)
    ensures Fees(rules, u, txs, height) >= 0
  {
    if txs != [] { FeesNonNegative(rules, u, txs[..|txs| - 1], height); }
  }

  /** Main result: no run of connects, disconnects and flushes ever has more unspent value than its active
      chain was allowed to issue. */
  lemma SupplyBounded(rules: Rules, states: seq<Node>)
    requires Run(rules, states)
    ensures var n := states[|states| - 1]; Total(n.view) <= Issued(rules, n.chain)
  {
    hide Total, Equiv;
    var n := states[|states| - 1];
    ViewIsReplayOfChain(rules, states);
    ReplayBounded(rules, n.chain);
    EquivTotal(Replay(n.chain), n.view);
  }
}
