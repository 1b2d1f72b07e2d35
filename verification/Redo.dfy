/** The converse of undoing: whatever view and undo data a block is disconnected with, a disconnect that reports no
    damage is undone by connecting the block's transactions again. */
module Redo {
  import opened CoinRecords
  import opened UtxoSet
  import opened UtxoUndo
  import opened Reorg

  /** A record as views keep them: well-formed and without provably unspendable outputs. */
  ghost predicate Tidy(c: Coins) { c.WellFormed() && forall i | 0 <= i < |c.vout| :: !c.vout[i].IsUnspendable() }

  ghost predicate TidyView(u: Utxo) { forall h | h in u :: Tidy(u[h]) }

  /** Undo data as they are written: an output that can be spent, and metadata only together with a height. */
  predicate Proper(undo: TxInUndo)
  {
    !undo.out.IsNull() && !undo.out.IsUnspendable() && (undo.height == 0 ==> !undo.coinBase && undo.version == 0)
  }

  ghost predicate AllProper(undos: seq<TxInUndo>) { forall i | 0 <= i < |undos| :: Proper(undos[i]) }

  // ---- one output ----

  lemma RestoredOutput(vout: seq<TxOut>, n: nat, out: TxOut)
    requires Trimmed(vout) && Blanked(vout) && !out.IsNull() && !out.IsUnspendable()
    requires forall i | 0 <= i < |vout| :: !vout[i].IsUnspendable()
    ensures var r := Resized(vout, n + 1)[n := out];
            && Trimmed(r) && Blanked(r) && (forall i | 0 <= i < |r| :: !r[i].IsUnspendable())
            && (n >= |vout| || vout[n].IsNull() ==> Trim(r[n := NULL_OUT]) == vout)
            && (n < |vout| && !vout[n].IsNull() ==> Trim(r[n := NULL_OUT]) != vout)
  {
    var r := Resized(vout, n + 1)[n := out];
    var b := r[n := NULL_OUT];
    if n < |vout| {
      assert b == vout[n := NULL_OUT];
      if vout[n].IsNull() { assert b == vout; }
    } else {
      assert b[..|vout|] == vout;
      TrimNulls(b, |vout|);
    }
  }

  lemma {:induction false} TrimNulls(b: seq<TxOut>, k: nat)
    requires k <= |b| && Trimmed(b[..k]) && forall i | k <= i < |b| :: b[i].IsNull()
    ensures Trim(b) == b[..k]
    decreases |b|
  {
    if k < |b| {
      assert b[..|b| - 1][..k] == b[..k];
      TrimNulls(b[..|b| - 1], k);
    } else {
      assert b[..k] == b;
    }
  }

  /** Restoring an output is found clean exactly if spending it again returns the record that was there, and there was
      one unless the undo data brought its metadata; then it also returns the undo data. */
  lemma SpendInvertsRestore(c: Coins, n: nat, undo: TxInUndo)
    requires Tidy(c) && Proper(undo)
    ensures var (r, clean) := RestoreOut(c, n, undo);
            && Tidy(r) && r.IsAvailable(n)
            && (clean <==> Same(SpendOut(r, n).0, c) && (undo.height == 0 ==> !c.IsPruned()))
            && (clean ==> SpendOut(r, n).1 == undo)
  {
    var base := if undo.height != 0 then Coins(undo.coinBase, [], undo.height, undo.version) else c;
    RestoredOutput(base.vout, n, undo.out);
    PrunedTidy(c);
    hide Trim, Resized;
  }

  lemma PrunedTidy(c: Coins)
    requires Tidy(c)
    ensures c.IsPruned() <==> c.vout == []
  {
    if c.vout != [] { assert !c.vout[|c.vout| - 1].IsNull(); }
  }

  // ---- the inputs of a transaction ----

  /** A clean restoration is inverted by spending the output again. */
  lemma RespendInput(s: Undone, out: OutPoint, undo: TxInUndo)
    requires TidyView(s.coins) && Proper(undo)
    ensures var t := RestoreInput(s, out, undo);
            && TidyView(t.coins)
            && (t.clean ==> s.clean && HasOutput(t.coins, out) && SpendInput(t.coins, out).1 == undo
                            && Equiv(SpendInput(t.coins, out).0, s.coins))
  {
    var c := Lookup(s.coins, out.hash);
    assert Tidy(c);
    SpendInvertsRestore(c, out.n, undo);
    hide RestoreOut, SpendOut, Tidy, Proper;
    var t := RestoreInput(s, out, undo);
    if t.clean {
      var v := SpendInput(t.coins, out).0;
      forall h: Txid ensures Same(Lookup(v, h), Lookup(s.coins, h)) {}
    }
  }

  /** The undo data of one input, if the output is there. */
  lemma SpentIsThere(u: Utxo, out: OutPoint)
    requires !SpendInput(u, out).1.out.IsNull()
    ensures HasOutput(u, out)
  {}

  lemma SpendLast(u: Utxo, vin: seq<OutPoint>)
    requires vin != []
    ensures var k := |vin| - 1;
            var (v, undos) := SpendAll(u, vin[..k]);
            SpendAll(u, vin) == (SpendInput(v, vin[k]).0, undos + [SpendInput(v, vin[k]).1])
  {
    hide SpendInput;
  }

  lemma ProperParts(undos: seq<TxInUndo>)
    requires AllProper(undos) && undos != []
    ensures var k := |undos| - 1; AllProper(undos[..k]) && Proper(undos[k]) && undos == undos[..k] + [undos[k]]
  {}

  /** On views that agree, spending outputs that are there agrees and leaves the same undo data. */
  lemma {:induction false} SpendAllAgree(u: Utxo, v: Utxo, vin: seq<OutPoint>)
    requires Equiv(u, v) && AllProper(SpendAll(u, vin).1)
    ensures Equiv(SpendAll(u, vin).0, SpendAll(v, vin).0) && SpendAll(u, vin).1 == SpendAll(v, vin).1
    decreases |vin|
  {
    hide Equiv, HasOutput, SpendInput, AllProper;
    if vin != [] {
      var k := |vin| - 1;
      SpendLast(u, vin);
      SpendLast(v, vin);
      hide SpendAll;
      var undos := SpendAll(u, vin).1;
      ProperParts(undos);
      assert undos[..k] == SpendAll(u, vin[..k]).1;
      SpendAllAgree(u, v, vin[..k]);
      SpentIsThere(SpendAll(u, vin[..k]).0, vin[k]);
      SpendInputEquiv(SpendAll(u, vin[..k]).0, SpendAll(v, vin[..k]).0, vin[k]);
    }
  }

  lemma {:induction false} RespendAll(s: Undone, vin: seq<OutPoint>, undos: seq<TxInUndo>)
    requires |vin| == |undos| && TidyView(s.coins) && AllProper(undos)
    ensures var t := RestoreAll(s, vin, undos);
            && TidyView(t.coins)
            && (t.clean ==> s.clean && SpendAll(t.coins, vin).1 == undos && Equiv(SpendAll(t.coins, vin).0, s.coins))
    decreases |vin|
  {
    hide Equiv, HasOutput, SpendInput, AllProper, RestoreInput, TidyView, Proper;
    if vin == [] {
      EquivRefl(s.coins);
    } else {
      var k := |vin| - 1;
      ProperParts(undos);
      var m := RestoreInput(s, vin[k], undos[k]);
      RespendInput(s, vin[k], undos[k]);
      RespendAll(m, vin[..k], undos[..k]);
      var t := RestoreAll(m, vin[..k], undos[..k]);
      assert t == RestoreAll(s, vin, undos);
      hide RestoreAll;
      SpendLast(t.coins, vin);
      if t.clean { RespendStep(s.coins, m.coins, SpendAll(t.coins, vin[..k]).0, vin[k]); }
    }
  }

  lemma RespendStep(s: Utxo, m: Utxo, v: Utxo, out: OutPoint)
    requires Equiv(v, m) && HasOutput(m, out) && Equiv(SpendInput(m, out).0, s)
    ensures Equiv(SpendInput(v, out).0, s) && SpendInput(v, out).1 == SpendInput(m, out).1
  {
    hide *;
    EquivSym(v, m);
    SpendInputEquiv(m, v, out);
    EquivSym(SpendInput(m, out).0, SpendInput(v, out).0);
    EquivTrans(SpendInput(v, out).0, SpendInput(m, out).0, s);
  }

  // ---- the outputs of a transaction ----

  lemma TidyCleared(c: Coins)
    requires Tidy(c)
    ensures Cleared(c) == c
  {
    assert DropUnspendable(c.vout) == c.vout;
  }

  /** Removing outputs is found clean exactly if the record in the view is the one the transaction created, apart
      from the version when the transaction's is negative. */
  lemma RecreateOutputs(s: Undone, tx: Tx, height: int)
    requires TidyView(s.coins)
    ensures var t, mine, found := RemoveOutputs(s, tx, height), CoinsOf(tx, height), Lookup(s.coins, tx.id);
            && TidyView(t.coins)
            && (t.clean <==> s.clean && Same(if tx.version < 0 then found.(version := tx.version) else found, mine))
            && (t.clean && tx.version >= 0 ==> Equiv(t.coins[tx.id := mine], s.coins))
  {
    var mine, found, t := CoinsOf(tx, height), Lookup(s.coins, tx.id), RemoveOutputs(s, tx, height);
    assert Tidy(found);
    TidyCleared(found);
    assert mine.version == tx.version;
    hide CoinsOf, Cleared;
    if t.clean && tx.version >= 0 {
      forall h: Txid ensures Same(Lookup(t.coins[tx.id := mine], h), Lookup(s.coins, h)) {}
    }
  }

  // ---- a whole block ----

  /** A block's transactions with undo data for all but the coinbase. */
  ghost predicate Undoable(txs: seq<Tx>, undos: seq<seq<TxInUndo>>)
  {
    && UndoFits(txs, undos) && (forall i | 0 <= i < |undos| :: AllProper(undos[i]))
    && (forall i | 0 <= i < |txs| :: txs[i].version >= 0 && (txs[i].IsCoinBase() <==> i == 0))
  }

  lemma ConnectAgree(u: Utxo, v: Utxo, tx: Tx, height: int)
    requires Equiv(u, v) && AllProper(ConnectTx(u, tx, height).1)
    ensures Equiv(ConnectTx(u, tx, height).0, ConnectTx(v, tx, height).0)
    ensures ConnectTx(u, tx, height).1 == ConnectTx(v, tx, height).1
  {
    hide Equiv, AllProper, SpendAll, CoinsOf;
    if !tx.IsCoinBase() { SpendAllAgree(u, v, tx.vin); }
    var u1 := if tx.IsCoinBase() then u else SpendAll(u, tx.vin).0;
    var v1 := if tx.IsCoinBase() then v else SpendAll(v, tx.vin).0;
    UpdateEquiv(u1, v1, tx.id, CoinsOf(tx, height));
  }

  /** A clean disconnect of transaction k is inverted by connecting it again. */
  lemma ReconnectTx(s: Undone, txs: seq<Tx>, undos: seq<seq<TxInUndo>>, height: int, k: nat)
    requires Undoable(txs, undos) && k < |txs| && TidyView(s.coins)
    ensures var t := DisconnectTx(s, txs, undos, height, k);
            && TidyView(t.coins)
            && (t.clean ==> s.clean && Equiv(ConnectTx(t.coins, txs[k], height).0, s.coins)
                            && ConnectTx(t.coins, txs[k], height).1 == (if k == 0 then [] else undos[k - 1]))
  {
    hide Equiv, AllProper, SpendAll, CoinsOf, RemoveOutputs, RestoreAll, TidyView;
    var tx, removed := txs[k], RemoveOutputs(s, txs[k], height);
    RecreateOutputs(s, tx, height);
    var t := DisconnectTx(s, txs, undos, height, k);
    if k == 0 {
      if t.clean { assert ConnectTx(t.coins, tx, height) == (t.coins[tx.id := CoinsOf(tx, height)], []); }
    } else {
      assert EntryFits(txs, undos, k);
      RespendAll(removed, tx.vin, undos[k - 1]);
      if t.clean {
        var w := SpendAll(t.coins, tx.vin).0;
        assert ConnectTx(t.coins, tx, height) == (w[tx.id := CoinsOf(tx, height)], undos[k - 1]);
        UpdateEquiv(w, removed.coins, tx.id, CoinsOf(tx, height));
        EquivTrans(w[tx.id := CoinsOf(tx, height)], removed.coins[tx.id := CoinsOf(tx, height)], s.coins);
      }
    }
  }

  /** Undo data of the first k transactions. */
  function UndosOf(undos: seq<seq<TxInUndo>>, k: nat): seq<seq<TxInUndo>>
    requires k <= |undos| + 1
  {
    if k == 0 then [] else undos[..k - 1]
  }

  lemma {:induction false} ReconnectTxs(s: Undone, txs: seq<Tx>, undos: seq<seq<TxInUndo>>, height: int, k: nat)
    requires Undoable(txs, undos) && k <= |txs| && TidyView(s.coins)
    ensures var t := DisconnectTxs(s, txs, undos, height, k);
            && TidyView(t.coins)
            && (t.clean ==> s.clean && Equiv(ConnectTxs(t.coins, txs[..k], height).0, s.coins)
                            && ConnectTxs(t.coins, txs[..k], height).1 == UndosOf(undos, k))
    decreases k
  {
    hide Equiv, AllProper, TidyView, DisconnectTx, ConnectTx;
    if k == 0 {
      EquivRefl(s.coins);
    } else {
      var m := DisconnectTx(s, txs, undos, height, k - 1);
      ReconnectTx(s, txs, undos, height, k - 1);
      ReconnectTxs(m, txs, undos, height, k - 1);
      var t := DisconnectTxs(m, txs, undos, height, k - 1);
      assert t == DisconnectTxs(s, txs, undos, height, k);
      hide DisconnectTxs;
      if t.clean {
        NoneProper();
        assert txs[..k][..k - 1] == txs[..k - 1];
        ReconnectStep(s.coins, m.coins, ConnectTxs(t.coins, txs[..k - 1], height).0, txs[k - 1], height);
      }
    }
  }

  lemma NoneProper()
    ensures AllProper([])
  {}

  lemma ReconnectStep(s: Utxo, m: Utxo, v: Utxo, tx: Tx, height: int)
    requires Equiv(v, m) && Equiv(ConnectTx(m, tx, height).0, s) && AllProper(ConnectTx(m, tx, height).1)
    ensures Equiv(ConnectTx(v, tx, height).0, s) && ConnectTx(v, tx, height).1 == ConnectTx(m, tx, height).1
  {
    hide *;
    EquivSym(v, m);
    ConnectAgree(m, v, tx, height);
    EquivSym(ConnectTx(m, tx, height).0, ConnectTx(v, tx, height).0);
    EquivTrans(ConnectTx(v, tx, height).0, ConnectTx(m, tx, height).0, s);
  }

  /** Main result: from every view of tidy records, with any undo data that fits, a disconnect that reports no damage
      leaves coins from which connecting the same transactions gives back the same coins and undo data. Damaged
      undo data, or a view that does not hold what the block created, is therefore always reported. */
  lemma CleanDisconnectIsRedone(u: Utxo, txs: seq<Tx>, undos: seq<seq<TxInUndo>>, height: int)
    requires TidyView(u) && Undoable(txs, undos)
    ensures var t := DisconnectTxs(Undone(u, true), txs, undos, height, |txs|);
            t.clean ==> Equiv(ConnectTxs(t.coins, txs, height).0, u) && ConnectTxs(t.coins, txs, height).1 == undos
  {
    hide *;
    ReconnectTxs(Undone(u, true), txs, undos, height, |txs|);
    assert txs[..|txs|] == txs;
    AllUndos(txs, undos);
  }

  lemma AllUndos(txs: seq<Tx>, undos: seq<seq<TxInUndo>>)
    requires Undoable(txs, undos)
    ensures |undos| + 1 == |txs| && UndosOf(undos, |txs|) == undos
  {}
}
