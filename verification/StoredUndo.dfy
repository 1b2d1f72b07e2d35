/** Undo data and records that went through the disk. A negative version does not survive being written, so
    what is read back may differ from what was in memory; this module follows that difference through a block. */
module StoredUndo {
  import opened Amounts
  import opened CoinRecords
  import opened UtxoSet
  import opened UtxoUndo
  import CoinCodec

  /** A record as it is read back: of a negative version the last seven bits are left. */
  function Worn(c: Coins): Coins { c.(version := Wrap(c.version)) }

  function WornIf(c: Coins, worn: bool): Coins { if worn then Worn(c) else c }

  /** `v` is `u` with the records of `w` worn; fully spent records need not match. */
  ghost predicate Fades(u: Utxo, v: Utxo, w: set<Txid>)
  {
    u.Keys == v.Keys && forall h | h in u :: Same(WornIf(u[h], h in w), v[h])
  }

  function StoredEntries(undos: seq<TxInUndo>): (r: seq<TxInUndo>)
    ensures |r| == |undos| && forall i | 0 <= i < |undos| :: r[i] == CoinCodec.NormalUndo(undos[i])
  {
    seq(|undos|, i requires 0 <= i < |undos| => CoinCodec.NormalUndo(undos[i]))
  }

  /** A block's undo data as it is read back. */
  function StoredUndos(undos: seq<seq<TxInUndo>>): (r: seq<seq<TxInUndo>>)
    ensures |r| == |undos| && forall i | 0 <= i < |undos| :: r[i] == StoredEntries(undos[i])
  {
    seq(|undos|, i requires 0 <= i < |undos| => StoredEntries(undos[i]))
  }

  // ---- what wearing does not change ----

  lemma WornLooks(c: Coins, worn: bool, d: Coins)
    requires Same(WornIf(c, worn), d)
    ensures c.IsPruned() == d.IsPruned() && (!c.IsPruned() ==> d == WornIf(c, worn))
  {}

  lemma FadesLooks(u: Utxo, v: Utxo, w: set<Txid>, h: Txid)
    requires Fades(u, v, w)
    ensures h in u <==> h in v
    ensures Lookup(u, h).IsPruned() == Lookup(v, h).IsPruned()
    ensures h in u && !u[h].IsPruned() ==> v[h] == WornIf(u[h], h in w)
  {
    if h in u { WornLooks(u[h], h in w, v[h]); }
  }

  lemma FadesHas(u: Utxo, v: Utxo, w: set<Txid>, out: OutPoint)
    requires Fades(u, v, w)
    ensures HasOutput(u, out) <==> HasOutput(v, out)
    ensures HasOutput(u, out) ==> v[out.hash] == WornIf(u[out.hash], out.hash in w)
  {
    FadesLooks(u, v, w, out.hash);
  }

  lemma FadesUpdate(u: Utxo, v: Utxo, w: set<Txid>, h: Txid, c: Coins, d: Coins)
    requires Fades(u, v, w) && Same(WornIf(c, h in w), d)
    ensures Fades(u[h := c], v[h := d], w)
  {
    hide WornIf;
  }

  /** Which absent or fully spent records count as worn does not matter. */
  lemma FadesOn(u: Utxo, v: Utxo, w: set<Txid>, x: set<Txid>)
    requires Fades(u, v, w) && forall h | h in u && (h in w) != (h in x) :: u[h].IsPruned()
    ensures Fades(u, v, x)
  {
    forall h | h in u ensures Same(WornIf(u[h], h in x), v[h])
    {
      WornLooks(u[h], h in w, v[h]);
    }
  }

  // ---- connecting ----

  lemma SpendWorn(c: Coins, n: nat, worn: bool)
    requires c.IsAvailable(n)
    ensures WornIf(c, worn).IsAvailable(n)
    ensures SpendOut(WornIf(c, worn), n).0 == WornIf(SpendOut(c, n).0, worn)
    ensures CoinCodec.NormalUndo(SpendOut(WornIf(c, worn), n).1) == CoinCodec.NormalUndo(SpendOut(c, n).1)
  {
    hide Trim;
  }

  lemma SpendFades(u: Utxo, v: Utxo, w: set<Txid>, out: OutPoint)
    requires Fades(u, v, w) && HasOutput(u, out)
    ensures Fades(SpendInput(u, out).0, SpendInput(v, out).0, w)
    ensures CoinCodec.NormalUndo(SpendInput(v, out).1) == CoinCodec.NormalUndo(SpendInput(u, out).1)
  {
    FadesHas(u, v, w, out);
    SpendWorn(u[out.hash], out.n, out.hash in w);
    hide SpendOut, Fades, WornIf;
    FadesUpdate(u, v, w, out.hash, SpendOut(u[out.hash], out.n).0, SpendOut(v[out.hash], out.n).0);
  }

  lemma {:induction false} SpendAllFades(u: Utxo, v: Utxo, w: set<Txid>, vin: seq<OutPoint>)
    requires Fades(u, v, w) && AllWellFormed(u) && (forall i | 0 <= i < |vin| :: HasOutput(u, vin[i]))
    requires forall i, j | 0 <= i < j < |vin| :: vin[i] != vin[j]
    ensures Fades(SpendAll(u, vin).0, SpendAll(v, vin).0, w)
    ensures StoredEntries(SpendAll(v, vin).1) == StoredEntries(SpendAll(u, vin).1)
  {
    hide Fades, HasOutput, SpendInput, CoinCodec.NormalUndo;
    if vin != [] {
      var k := |vin| - 1;
      SpendAllFades(u, v, w, vin[..k]);
      SpendAllRemoves(u, vin[..k]);
      assert HasOutput(u, vin[k]) && vin[k] !in vin[..k];
      var a, b := SpendAll(u, vin[..k]), SpendAll(v, vin[..k]);
      SpendFades(a.0, b.0, w, vin[k]);
      StoredSnoc(a.1, SpendInput(a.0, vin[k]).1);
      StoredSnoc(b.1, SpendInput(b.0, vin[k]).1);
    }
  }

  lemma StoredSnoc(undos: seq<TxInUndo>, e: TxInUndo)
    ensures StoredEntries(undos + [e]) == StoredEntries(undos) + [CoinCodec.NormalUndo(e)]
  {
    hide CoinCodec.NormalUndo;
  }

  lemma StoredBlockSnoc(undos: seq<seq<TxInUndo>>, e: seq<TxInUndo>)
    ensures StoredUndos(undos + [e]) == StoredUndos(undos) + [StoredEntries(e)]
  {
    hide StoredEntries;
  }

  lemma CreateFades(u: Utxo, v: Utxo, w: set<Txid>, id: Txid, c: Coins)
    requires Fades(u, v, w) && id !in u
    ensures Fades(u[id := c], v[id := c], w - {id})
  {
    FadesOn(u, v, w, w - {id});
    hide Fades;
    FadesUpdate(u, v, w - {id}, id, c, c);
  }

  lemma ConnectTxFades(u: Utxo, v: Utxo, w: set<Txid>, tx: Tx, height: int)
    requires Fades(u, v, w) && AllWellFormed(u) && CheckTransaction(tx) && InputsPresent(u, tx) && tx.id !in u
    ensures Fades(ConnectTx(u, tx, height).0, ConnectTx(v, tx, height).0, w - {tx.id})
    ensures StoredEntries(ConnectTx(v, tx, height).1) == StoredEntries(ConnectTx(u, tx, height).1)
  {
    hide Fades, CoinsOf, SpendAll, AllWellFormed, HasOutput;
    if tx.IsCoinBase() {
      CreateFades(u, v, w, tx.id, CoinsOf(tx, height));
    } else {
      CheckedPlain(tx);
      SpendAllFades(u, v, w, tx.vin);
      SpendAllRemoves(u, tx.vin);
      CreateFades(SpendAll(u, tx.vin).0, SpendAll(v, tx.vin).0, w, tx.id, CoinsOf(tx, height));
    }
  }

  lemma {:induction false} ValueInFades(u: Utxo, v: Utxo, w: set<Txid>, vin: seq<OutPoint>)
    requires Fades(u, v, w) && forall i | 0 <= i < |vin| :: HasOutput(u, vin[i]) && HasOutput(v, vin[i])
    ensures ValueIn(u, vin) == ValueIn(v, vin)
  {
    hide Fades, HasOutput;
    if vin != [] {
      var k := |vin| - 1;
      assert HasOutput(u, vin[k]) && HasOutput(v, vin[k]);
      ValueInFades(u, v, w, vin[..k]);
      FadesHas(u, v, w, vin[k]);
    }
  }

  lemma PresentFades(u: Utxo, v: Utxo, w: set<Txid>, tx: Tx)
    requires Fades(u, v, w)
    ensures InputsPresent(u, tx) <==> InputsPresent(v, tx)
  {
    hide Fades, HasOutput;
    forall i | 0 <= i < |tx.vin| ensures HasOutput(u, tx.vin[i]) <==> HasOutput(v, tx.vin[i])
    {
      FadesHas(u, v, w, tx.vin[i]);
    }
  }

  lemma InputFades(rules: Rules, u: Utxo, v: Utxo, w: set<Txid>, tx: Tx, height: int, i: nat)
    requires Fades(u, v, w) && !tx.IsCoinBase() && InputsPresent(u, tx) && InputsPresent(v, tx) && i < |tx.vin|
    ensures InputOk(rules, u, tx, height, i) <==> InputOk(rules, v, tx, height, i)
  {
    hide Fades, HasOutput;
    FadesHas(u, v, w, tx.vin[i]);
    ValueInFades(u, v, w, tx.vin[..i + 1]);
  }

  /** The checks of a transaction do not see versions. */
  lemma CheckFades(rules: Rules, u: Utxo, v: Utxo, w: set<Txid>, tx: Tx, height: int)
    requires Fades(u, v, w)
    ensures CheckInputs(rules, u, tx, height) <==> CheckInputs(rules, v, tx, height)
    ensures CheckInputs(rules, u, tx, height) ==> InputsPresent(u, tx) && InputsPresent(v, tx) && Fee(u, tx) == Fee(v, tx)
  {
    hide Fades, HasOutput, InputOk, ValueIn, ValueOut;
    PresentFades(u, v, w, tx);
    if !tx.IsCoinBase() && InputsPresent(u, tx) {
      ValueInFades(u, v, w, tx.vin);
      forall i | 0 <= i < |tx.vin| ensures InputOk(rules, u, tx, height, i) <==> InputOk(rules, v, tx, height, i)
      {
        InputFades(rules, u, v, w, tx, height, i);
      }
    }
  }

  /** What is asked of a list of transactions besides their inputs. */
  predicate Loose(u: Utxo, txs: seq<Tx>)
  {
    && AllWellFormed(u) && (forall i | 0 <= i < |txs| :: CheckTransaction(txs[i]))
    && (forall i, j | 0 <= i < j < |txs| :: txs[i].id != txs[j].id) && NoOverwrite(u, txs)
  }

  lemma LooseParts(rules: Rules, u: Utxo, txs: seq<Tx>, height: int)
    requires Loose(u, txs)
    ensures TxsOk(rules, u, txs, height) ==> Connectable(rules, u, txs, height)
    ensures txs != [] ==> Loose(u, txs[..|txs| - 1]) && CheckTransaction(txs[|txs| - 1]) && txs[|txs| - 1].id !in u
    ensures txs != [] ==> txs[|txs| - 1].id !in Ids(txs[..|txs| - 1])
  {
    hide CheckTransaction, TxsOk;
  }

  /** Connecting the same transactions to a worn view: the same verdict, the same fees, the same stored undo
      data, and a view worn in the same places. */
  lemma {:induction false} ConnectFades(rules: Rules, u: Utxo, v: Utxo, w: set<Txid>, txs: seq<Tx>, height: int)
    requires Fades(u, v, w) && Loose(u, txs)
    ensures TxsOk(rules, u, txs, height) <==> TxsOk(rules, v, txs, height)
    ensures TxsOk(rules, u, txs, height) ==>
              && Fades(ConnectTxs(u, txs, height).0, ConnectTxs(v, txs, height).0, w - Ids(txs))
              && StoredUndos(ConnectTxs(v, txs, height).1) == StoredUndos(ConnectTxs(u, txs, height).1)
              && Fees(rules, u, txs, height) == Fees(rules, v, txs, height)
  {
    hide *;
    LooseParts(rules, u, txs, height);
    if txs == [] {
      NoneFades(rules, u, v, w, txs, height);
    } else {
      var k := |txs| - 1;
      var before, tx := txs[..k], txs[k];
      assert txs == before + [tx];
      ConnectFades(rules, u, v, w, before, height);
      NextChecked(rules, u, before, tx, height);
      NextChecked(rules, v, before, tx, height);
      if TxsOk(rules, u, before, height) { NextFades(rules, u, v, w, before, tx, height); }
    }
  }

  lemma NoneFades(rules: Rules, u: Utxo, v: Utxo, w: set<Txid>, txs: seq<Tx>, height: int)
    requires Fades(u, v, w) && txs == []
    ensures TxsOk(rules, u, txs, height) && TxsOk(rules, v, txs, height)
    ensures Fades(ConnectTxs(u, txs, height).0, ConnectTxs(v, txs, height).0, w - Ids(txs))
    ensures StoredUndos(ConnectTxs(v, txs, height).1) == StoredUndos(ConnectTxs(u, txs, height).1)
    ensures Fees(rules, u, txs, height) == Fees(rules, v, txs, height)
  {
    assert w - Ids(txs) == w;
  }

  lemma NextFades(rules: Rules, u: Utxo, v: Utxo, w: set<Txid>, before: seq<Tx>, tx: Tx, height: int)
    requires Loose(u, before + [tx]) && TxsOk(rules, u, before, height) && TxsOk(rules, v, before, height)
    requires var a, b := ConnectTxs(u, before, height), ConnectTxs(v, before, height);
             Fades(a.0, b.0, w - Ids(before)) && StoredUndos(b.1) == StoredUndos(a.1)
    requires Fees(rules, u, before, height) == Fees(rules, v, before, height)
    ensures var a, b := ConnectTxs(u, before, height).0, ConnectTxs(v, before, height).0;
            CheckInputs(rules, a, tx, height) <==> CheckInputs(rules, b, tx, height)
    ensures CheckInputs(rules, ConnectTxs(u, before, height).0, tx, height) ==>
              var txs := before + [tx];
              && TxsOk(rules, u, txs, height) && TxsOk(rules, v, txs, height)
              && Fades(ConnectTxs(u, txs, height).0, ConnectTxs(v, txs, height).0, w - Ids(txs))
              && StoredUndos(ConnectTxs(v, txs, height).1) == StoredUndos(ConnectTxs(u, txs, height).1)
              && Fees(rules, u, txs, height) == Fees(rules, v, txs, height)
  {
    hide *;
    var txs, a, b := before + [tx], ConnectTxs(u, before, height), ConnectTxs(v, before, height);
    assert txs[..|txs| - 1] == before && txs[|txs| - 1] == tx;
    CheckFades(rules, a.0, b.0, w - Ids(before), tx, height);
    if CheckInputs(rules, a.0, tx, height) {
      LooseParts(rules, u, txs, height);
      LooseParts(rules, u, before, height);
      ConnectKeeps(rules, u, before, height);
      ConnectTxFades(a.0, b.0, w - Ids(before), tx, height);
      NextConnected(rules, u, before, tx, height);
      NextConnected(rules, v, before, tx, height);
      IdsSnoc(txs);
      assert w - Ids(before) - {tx.id} == w - Ids(txs);
      StoredBlockSnoc(a.1, ConnectTx(a.0, tx, height).1);
      StoredBlockSnoc(b.1, ConnectTx(b.0, tx, height).1);
    }
  }

  lemma AcceptsFades(rules: Rules, u: Utxo, v: Utxo, w: set<Txid>, block: Block, height: int, genesis: bool)
    requires Fades(u, v, w) && AllWellFormed(u)
    ensures Accepts(rules, u, block, height, genesis) <==> Accepts(rules, v, block, height, genesis)
  {
    assert NoOverwrite(u, block.txs) <==> NoOverwrite(v, block.txs);
    hide Fades, AllWellFormed, CheckTransaction, TxsOk, ValueOut, Fees, NoOverwrite;
    if CheckBlock(block) && NoOverwrite(u, block.txs) { ConnectFades(rules, u, v, w, block.txs, height); }
  }

  // ---- disconnecting ----

  /** Entries that restore a whole record concern only records of `w`. */
  ghost predicate MarksIn(vin: seq<OutPoint>, undos: seq<TxInUndo>, w: set<Txid>)
  {
    |undos| == |vin| && forall i | 0 <= i < |vin| :: undos[i].height >= 0 && (undos[i].height != 0 ==> vin[i].hash in w)
  }

  ghost predicate BlockMarksIn(txs: seq<Tx>, undos: seq<seq<TxInUndo>>, w: set<Txid>)
  {
    |undos| == |txs| - 1 && forall i | 1 <= i < |txs| :: MarksIn(txs[i].vin, undos[i - 1], w)
  }

  lemma RestoreWorn(c: Coins, worn: bool, d: Coins, n: nat, undo: TxInUndo)
    requires Same(WornIf(c, worn), d) && undo.height >= 0 && (undo.height != 0 ==> worn)
    ensures RestoreOut(d, n, CoinCodec.NormalUndo(undo)).1 == RestoreOut(c, n, undo).1
    ensures RestoreOut(c, n, undo).1 ==> RestoreOut(d, n, CoinCodec.NormalUndo(undo)).0 == WornIf(RestoreOut(c, n, undo).0, worn)
  {
    WornLooks(c, worn, d);
  }

  lemma RestoreFades(s: Undone, t: Undone, w: set<Txid>, out: OutPoint, undo: TxInUndo)
    requires s.clean && t.clean && Fades(s.coins, t.coins, w) && undo.height >= 0 && (undo.height != 0 ==> out.hash in w)
    ensures var r, q := RestoreInput(s, out, undo), RestoreInput(t, out, CoinCodec.NormalUndo(undo));
            r.clean == q.clean && (r.clean ==> Fades(r.coins, q.coins, w))
  {
    var c, d := Lookup(s.coins, out.hash), Lookup(t.coins, out.hash);
    LookupFades(s.coins, t.coins, w, out.hash);
    RestoreWorn(c, out.hash in w, d, out.n, undo);
    hide RestoreOut, Fades, WornIf, Lookup;
    if RestoreOut(c, out.n, undo).1 {
      FadesUpdate(s.coins, t.coins, w, out.hash, RestoreOut(c, out.n, undo).0, RestoreOut(d, out.n, CoinCodec.NormalUndo(undo)).0);
    }
  }

  lemma LookupFades(u: Utxo, v: Utxo, w: set<Txid>, h: Txid)
    requires Fades(u, v, w)
    ensures Same(WornIf(Lookup(u, h), h in w), Lookup(v, h))
  {}

  lemma {:induction false} RestoreAllFades(s: Undone, t: Undone, w: set<Txid>, vin: seq<OutPoint>, undos: seq<TxInUndo>)
    requires s.clean && t.clean && Fades(s.coins, t.coins, w) && MarksIn(vin, undos, w)
    ensures var r, q := RestoreAll(s, vin, undos), RestoreAll(t, vin, StoredEntries(undos));
            r.clean == q.clean && (r.clean ==> Fades(r.coins, q.coins, w))
    decreases |vin|
  {
    hide Fades, RestoreInput, CoinCodec.NormalUndo;
    if vin != [] {
      var k := |vin| - 1;
      assert undos[k].height >= 0;
      RestoreFades(s, t, w, vin[k], undos[k]);
      var r, q := RestoreInput(s, vin[k], undos[k]), RestoreInput(t, vin[k], CoinCodec.NormalUndo(undos[k]));
      assert StoredEntries(undos)[..k] == StoredEntries(undos[..k]);
      if r.clean {
        RestoreAllFades(r, q, w, vin[..k], undos[..k]);
      } else {
        RestoreStaysUnclean(r, vin[..k], undos[..k]);
        RestoreStaysUnclean(q, vin[..k], StoredEntries(undos[..k]));
      }
    }
  }

  lemma ClearedWorn(c: Coins, worn: bool)
    ensures Cleared(WornIf(c, worn)) == WornIf(Cleared(c), worn)
  {}

  /** The comparison with the block's own outputs ignores a negative version, which is what keeps it clean. */
  lemma OutputsMatch(c: Coins, worn: bool, d: Coins, mine: Coins)
    requires Same(WornIf(c, worn), d)
    requires var outs := Cleared(c); Same(if mine.version < 0 then outs.(version := mine.version) else outs, mine)
    ensures var outs := Cleared(d); Same(if mine.version < 0 then outs.(version := mine.version) else outs, mine)
  {
    WornLooks(c, worn, d);
    ClearedWorn(c, worn);
    ClearedTwice(c);
    ClearedTwice(d);
    hide Cleared;
  }

  lemma RemoveFades(s: Undone, t: Undone, w: set<Txid>, tx: Tx, height: int)
    requires t.clean && Fades(s.coins, t.coins, w) && RemoveOutputs(s, tx, height).clean
    ensures var r, q := RemoveOutputs(s, tx, height), RemoveOutputs(t, tx, height);
            q.clean && Fades(r.coins, q.coins, w)
  {
    LookupFades(s.coins, t.coins, w, tx.id);
    OutputsMatch(Lookup(s.coins, tx.id), tx.id in w, Lookup(t.coins, tx.id), CoinsOf(tx, height));
    hide Cleared, CoinsOf, Lookup;
    assert tx.id in s.coins <==> tx.id in t.coins;
    hide Fades;
    FadesUpdate(s.coins, t.coins, w, tx.id, EMPTY_COINS, EMPTY_COINS);
  }

  /** Along the undoing of an accepted block, the outputs of each transaction match. */
  lemma RemovedClean(rules: Rules, u: Utxo, v: Utxo, txs: seq<Tx>, height: int, k: nat)
    requires Connectable(rules, u, txs, height) && 1 <= k <= |txs| && txs[0].IsCoinBase()
    requires forall i | 1 <= i < |txs| :: !txs[i].IsCoinBase()
    requires Equiv(ConnectTxs(u, txs[..k], height).0, v)
    ensures RemoveOutputs(Undone(v, true), txs[k - 1], height).clean
  {
    hide Equiv, RemoveOutputs, SpendAll, CheckTransaction, CheckInputs, CoinsOf;
    var init, tx := txs[..k - 1], txs[k - 1];
    assert txs[..k][..k - 1] == init;
    PrefixConnectable(rules, u, txs, height, k);
    ConnectKeeps(rules, u, init, height);
    var mid := ConnectTxs(u, init, height).0;
    assert tx.id !in mid;
    if k == 1 {
      RemoveOutputsInverts(mid, v, tx, height, true);
    } else {
      assert CheckTransaction(tx);
      CheckedPlain(tx);
      CheckedInputsPresent(rules, mid, tx, height);
      SpendAllRemoves(mid, tx.vin);
      RemoveOutputsInverts(SpendAll(mid, tx.vin).0, v, tx, height, true);
    }
  }

  lemma StoredFit(txs: seq<Tx>, undos: seq<seq<TxInUndo>>)
    requires UndoFits(txs, undos)
    ensures UndoFits(txs, StoredUndos(undos))
  {
    forall i | 1 <= i < |txs| ensures EntryFits(txs, StoredUndos(undos), i)
    {
      assert EntryFits(txs, undos, i);
    }
  }

  lemma OneFades(rules: Rules, u: Utxo, v: Utxo, v': Utxo, w: set<Txid>, txs: seq<Tx>, height: int, k: nat)
    requires Connectable(rules, u, txs, height) && 1 <= k <= |txs| && txs[0].IsCoinBase()
    requires forall i | 1 <= i < |txs| :: !txs[i].IsCoinBase()
    requires Equiv(ConnectTxs(u, txs[..k], height).0, v) && Fades(v, v', w) && BlockMarksIn(txs, ConnectTxs(u, txs, height).1, w)
    ensures var undos := ConnectTxs(u, txs, height).1;
            && UndoFits(txs, undos) && UndoFits(txs, StoredUndos(undos))
            && var r, q := DisconnectTx(Undone(v, true), txs, undos, height, k - 1),
                           DisconnectTx(Undone(v', true), txs, StoredUndos(undos), height, k - 1);
               r.clean == q.clean && (r.clean ==> Fades(r.coins, q.coins, w))
  {
    hide Equiv, ConnectTxs, Fades, RemoveOutputs, RestoreAll, Connectable, StoredEntries;
    var undos := ConnectTxs(u, txs, height).1;
    UndoDataFits(u, txs, height);
    StoredFit(txs, undos);
    RemovedClean(rules, u, v, txs, height, k);
    RemoveFades(Undone(v, true), Undone(v', true), w, txs[k - 1], height);
    if k > 1 {
      assert EntryFits(txs, undos, k - 1);
      RestoreAllFades(RemoveOutputs(Undone(v, true), txs[k - 1], height), RemoveOutputs(Undone(v', true), txs[k - 1], height),
                      w, txs[k - 1].vin, undos[k - 2]);
    }
  }

  /** Disconnecting a worn view with stored undo data is clean exactly when disconnecting the original with the
      data in memory is, and ends in a view worn in the same places. */
  lemma {:induction false} DisconnectFades(
      rules: Rules, u: Utxo, v: Utxo, v': Utxo, w: set<Txid>, txs: seq<Tx>, height: int, k: nat)
    requires Connectable(rules, u, txs, height) && k <= |txs| && txs != [] && txs[0].IsCoinBase()
    requires forall i | 1 <= i < |txs| :: !txs[i].IsCoinBase()
    requires Equiv(ConnectTxs(u, txs[..k], height).0, v) && Fades(v, v', w) && BlockMarksIn(txs, ConnectTxs(u, txs, height).1, w)
    ensures var undos := ConnectTxs(u, txs, height).1;
            && UndoFits(txs, undos) && UndoFits(txs, StoredUndos(undos))
            && var r, q := DisconnectTxs(Undone(v, true), txs, undos, height, k),
                           DisconnectTxs(Undone(v', true), txs, StoredUndos(undos), height, k);
               r.clean == q.clean && (r.clean ==> Fades(r.coins, q.coins, w))
    decreases k
  {
    hide Equiv, ConnectTxs, Fades, DisconnectTx, Connectable, StoredUndos, BlockMarksIn;
    var undos := ConnectTxs(u, txs, height).1;
    UndoDataFits(u, txs, height);
    StoredFit(txs, undos);
    if k > 0 {
      OneFades(rules, u, v, v', w, txs, height, k);
      DisconnectOneInverts(rules, u, v, txs, height, true, k);
      var r, q := DisconnectTx(Undone(v, true), txs, undos, height, k - 1),
                  DisconnectTx(Undone(v', true), txs, StoredUndos(undos), height, k - 1);
      if r.clean {
        DisconnectFades(rules, u, r.coins, q.coins, w, txs, height, k - 1);
      } else {
        DisconnectStaysUnclean(r, txs, undos, height, k - 1);
        DisconnectStaysUnclean(q, txs, StoredUndos(undos), height, k - 1);
      }
    }
  }

  // ---- what is written can be written ----

  /** Values and height are not negative. */
  ghost predicate Storable(c: Coins) { c.height >= 0 && CoinCodec.Priced(c.vout) }

  ghost predicate AllStorable(u: Utxo) { forall h | h in u && !u[h].IsPruned() :: Storable(u[h]) }

  predicate StorableEntry(e: TxInUndo) { e.height >= 0 && e.out.value >= 0 }

  ghost predicate AllEntriesStorable(undos: seq<seq<TxInUndo>>)
  {
    forall i, j | 0 <= i < |undos| && 0 <= j < |undos[i]| :: StorableEntry(undos[i][j])
  }

  lemma SpendStorable(u: Utxo, out: OutPoint)
    requires AllStorable(u) && HasOutput(u, out)
    ensures AllStorable(SpendInput(u, out).0) && StorableEntry(SpendInput(u, out).1)
  {
    var c := u[out.hash];
    assert !c.vout[out.n].IsNull();
    assert Storable(c);
    var rest := SpendOut(c, out.n).0;
    assert forall i | 0 <= i < |rest.vout| :: rest.vout[i] == NULL_OUT || rest.vout[i] == c.vout[i];
    assert Storable(rest);
  }

  lemma {:induction false} SpendAllStorable(u: Utxo, vin: seq<OutPoint>)
    requires AllStorable(u) && AllWellFormed(u) && (forall i | 0 <= i < |vin| :: HasOutput(u, vin[i]))
    requires forall i, j | 0 <= i < j < |vin| :: vin[i] != vin[j]
    ensures AllStorable(SpendAll(u, vin).0) && forall i | 0 <= i < |vin| :: StorableEntry(SpendAll(u, vin).1[i])
  {
    hide AllStorable, StorableEntry, HasOutput, SpendInput;
    if vin != [] {
      var k := |vin| - 1;
      SpendAllStorable(u, vin[..k]);
      SpendAllRemoves(u, vin[..k]);
      assert HasOutput(u, vin[k]) && vin[k] !in vin[..k];
      SpendStorable(SpendAll(u, vin[..k]).0, vin[k]);
    }
  }

  lemma CreatedStorable(tx: Tx, height: int)
    requires CheckTransaction(tx) && height >= 0
    ensures Storable(CoinsOf(tx, height))
  {
    var d := DropUnspendable(tx.vout);
    assert forall i | 0 <= i < |d| :: d[i].IsNull() || d[i].value >= 0;
  }

  lemma ConnectTxStorable(u: Utxo, tx: Tx, height: int)
    requires AllStorable(u) && AllWellFormed(u) && CheckTransaction(tx) && InputsPresent(u, tx) && height >= 0
    ensures AllStorable(ConnectTx(u, tx, height).0)
    ensures forall i | 0 <= i < |ConnectTx(u, tx, height).1| :: StorableEntry(ConnectTx(u, tx, height).1[i])
  {
    CreatedStorable(tx, height);
    hide Storable, HasOutput, CoinsOf;
    if !tx.IsCoinBase() {
      CheckedPlain(tx);
      SpendAllStorable(u, tx.vin);
    }
    hide CheckTransaction;
  }

  lemma {:induction false} ConnectStorable(rules: Rules, u: Utxo, txs: seq<Tx>, height: int)
    requires Connectable(rules, u, txs, height) && AllStorable(u) && height >= 0
    ensures AllStorable(ConnectTxs(u, txs, height).0) && AllEntriesStorable(ConnectTxs(u, txs, height).1)
  {
    hide AllStorable, StorableEntry, ConnectTx, CheckTransaction, CheckInputs, AllWellFormed;
    if txs != [] {
      var k := |txs| - 1;
      PrefixConnectable(rules, u, txs, height, k + 1);
      ConnectStorable(rules, u, txs[..k], height);
      ConnectKeeps(rules, u, txs[..k], height);
      assert CheckTransaction(txs[k]);
      CheckedInputsPresent(rules, ConnectTxs(u, txs[..k], height).0, txs[k], height);
      ConnectTxStorable(ConnectTxs(u, txs[..k], height).0, txs[k], height);
    }
  }

  // ---- which records are restored as a whole ----

  lemma SpendKeepsPruned(u: Utxo, out: OutPoint, h: Txid)
    requires h in u && u[h].IsPruned()
    ensures h in SpendInput(u, out).0 && SpendInput(u, out).0[h].IsPruned()
  {}

  lemma {:induction false} SpendAllKeepsPruned(u: Utxo, vin: seq<OutPoint>, h: Txid)
    requires h in u && u[h].IsPruned()
    ensures h in SpendAll(u, vin).0 && SpendAll(u, vin).0[h].IsPruned()
  {
    hide SpendInput;
    if vin != [] {
      var k := |vin| - 1;
      SpendAllKeepsPruned(u, vin[..k], h);
      SpendKeepsPruned(SpendAll(u, vin[..k]).0, vin[k], h);
    }
  }

  lemma ConnectTxKeepsPruned(u: Utxo, tx: Tx, height: int, h: Txid)
    requires h in u && u[h].IsPruned() && tx.id != h
    ensures h in ConnectTx(u, tx, height).0 && ConnectTx(u, tx, height).0[h].IsPruned()
  {
    hide SpendAll, CoinsOf;
    if !tx.IsCoinBase() { SpendAllKeepsPruned(u, tx.vin, h); }
  }

  lemma {:induction false} ConnectKeepsPruned(u: Utxo, txs: seq<Tx>, height: int, i: nat, h: Txid)
    requires i <= |txs| && h in ConnectTxs(u, txs[..i], height).0 && ConnectTxs(u, txs[..i], height).0[h].IsPruned()
    requires forall j | i <= j < |txs| :: txs[j].id != h
    ensures h in ConnectTxs(u, txs, height).0 && ConnectTxs(u, txs, height).0[h].IsPruned()
    decreases |txs|
  {
    hide ConnectTx;
    if i == |txs| {
      assert txs[..i] == txs;
    } else {
      var k := |txs| - 1;
      assert txs[..k][..i] == txs[..i];
      ConnectKeepsPruned(u, txs[..k], height, i, h);
      ConnectTxKeepsPruned(ConnectTxs(u, txs[..k], height).0, txs[k], height, h);
    }
  }

  /** An entry with a height belongs to a record that is now fully spent. */
  lemma {:induction false} SpendMarks(u: Utxo, vin: seq<OutPoint>, j: nat)
    requires j < |vin| && SpendAll(u, vin).1[j].height != 0
    ensures var h := vin[j].hash; h in SpendAll(u, vin).0 && SpendAll(u, vin).0[h].IsPruned()
  {
    var k := |vin| - 1;
    var mid := SpendAll(u, vin[..k]).0;
    if j < k {
      hide SpendInput;
      SpendMarks(u, vin[..k], j);
      SpendKeepsPruned(mid, vin[k], vin[j].hash);
    }
  }

  ghost function PrunedIds(v: Utxo): set<Txid> { set h | h in v && v[h].IsPruned() }

  lemma EntryOf(u: Utxo, txs: seq<Tx>, height: int, i: nat)
    requires 1 <= i < |txs| && txs[0].IsCoinBase() && forall l | 1 <= l < |txs| :: !txs[l].IsCoinBase()
    ensures var undos := ConnectTxs(u, txs, height).1;
            |undos| == |txs| - 1 && undos[i - 1] == SpendAll(ConnectTxs(u, txs[..i], height).0, txs[i].vin).1
  {
    UndoEntry(u, txs, height, i);
    hide SpendAll, CoinsOf, ConnectTxs;
  }

  lemma MarkPruned(rules: Rules, u: Utxo, txs: seq<Tx>, height: int, i: nat, j: nat)
    requires Connectable(rules, u, txs, height) && 1 <= i < |txs| && j < |txs[i].vin| && txs[0].IsCoinBase()
    requires forall l | 1 <= l < |txs| :: !txs[l].IsCoinBase()
    ensures var undos := ConnectTxs(u, txs, height).1;
            && |undos| == |txs| - 1 && |undos[i - 1]| == |txs[i].vin|
            && (undos[i - 1][j].height != 0 ==> txs[i].vin[j].hash in PrunedIds(ConnectTxs(u, txs, height).0))
  {
    hide *;
    EntryOf(u, txs, height, i);
    var h := txs[i].vin[j].hash;
    var spent := SpendAll(ConnectTxs(u, txs[..i], height).0, txs[i].vin);
    if spent.1[j].height != 0 {
      SpendMarks(ConnectTxs(u, txs[..i], height).0, txs[i].vin, j);
      MarkLater(rules, u, txs, height, i, h);
      ConnectKeepsPruned(u, txs, height, i + 1, h);
      InPrunedIds(ConnectTxs(u, txs, height).0, h);
    }
  }

  lemma InPrunedIds(v: Utxo, h: Txid)
    ensures h in PrunedIds(v) <==> h in v && v[h].IsPruned()
  {}

  /** A record that transaction i empties is none that it or a later one creates. */
  lemma MarkLater(rules: Rules, u: Utxo, txs: seq<Tx>, height: int, i: nat, h: Txid)
    requires Connectable(rules, u, txs, height) && i < |txs| && !txs[i].IsCoinBase()
    requires var w := SpendAll(ConnectTxs(u, txs[..i], height).0, txs[i].vin).0; h in w && w[h].IsPruned()
    ensures forall l | i <= l < |txs| :: txs[l].id != h
    ensures var w := ConnectTxs(u, txs[..i + 1], height).0; h in w && w[h].IsPruned()
  {
    hide *;
    SpentKeys(rules, u, txs, height, i);
    NotCreated(rules, u, txs, height, i, h);
    ConnectedOne(u, txs, height, i);
  }

  lemma SpentKeys(rules: Rules, u: Utxo, txs: seq<Tx>, height: int, i: nat)
    requires Connectable(rules, u, txs, height) && i < |txs| && !txs[i].IsCoinBase()
    ensures SpendAll(ConnectTxs(u, txs[..i], height).0, txs[i].vin).0.Keys == u.Keys + Ids(txs[..i])
  {
    PrefixConnectable(rules, u, txs, height, i + 1);
    var mid := ConnectTxs(u, txs[..i], height).0;
    assert CheckTransaction(txs[i]);
    hide ConnectTxs, SpendAll, CheckInputs, Connectable, HasOutput, Ids, AllWellFormed;
    ConnectKeeps(rules, u, txs[..i], height);
    CheckedPlain(txs[i]);
    CheckedInputsPresent(rules, mid, txs[i], height);
    SpendAllRemoves(mid, txs[i].vin);
  }

  lemma NotCreated(rules: Rules, u: Utxo, txs: seq<Tx>, height: int, i: nat, h: Txid)
    requires Connectable(rules, u, txs, height) && i <= |txs| && h in u.Keys + Ids(txs[..i])
    ensures forall l | i <= l < |txs| :: txs[l].id != h
  {
    hide CheckTransaction, TxsOk, AllWellFormed;
  }

  lemma ConnectedOne(u: Utxo, txs: seq<Tx>, height: int, i: nat)
    requires i < |txs| && !txs[i].IsCoinBase()
    ensures ConnectTxs(u, txs[..i + 1], height).0 ==
            SpendAll(ConnectTxs(u, txs[..i], height).0, txs[i].vin).0[txs[i].id := CoinsOf(txs[i], height)]
  {
    hide SpendAll, CoinsOf;
    assert txs[..i + 1][..i] == txs[..i];
  }

  lemma MarksPruned(rules: Rules, u: Utxo, txs: seq<Tx>, height: int, w: set<Txid>)
    requires Connectable(rules, u, txs, height) && txs != [] && txs[0].IsCoinBase() && AllStorable(u) && height >= 0
    requires forall l | 1 <= l < |txs| :: !txs[l].IsCoinBase()
    requires PrunedIds(ConnectTxs(u, txs, height).0) <= w
    ensures BlockMarksIn(txs, ConnectTxs(u, txs, height).1, w)
  {
    ConnectStorable(rules, u, txs, height);
    UndoDataFits(u, txs, height);
    hide ConnectTxs, Connectable, PrunedIds, AllStorable;
    var undos := ConnectTxs(u, txs, height).1;
    forall i | 1 <= i < |txs| ensures MarksIn(txs[i].vin, undos[i - 1], w)
    {
      assert EntryFits(txs, undos, i);
      forall j | 0 <= j < |txs[i].vin| ensures undos[i - 1][j].height >= 0 && (undos[i - 1][j].height != 0 ==> txs[i].vin[j].hash in w)
      {
        assert StorableEntry(undos[i - 1][j]);
        MarkPruned(rules, u, txs, height, i, j);
      }
    }
  }

  // ---- a block undone from disk ----

  /** The block spends every output the record still has. */
  ghost predicate Emptied(u: Utxo, txs: seq<Tx>, h: Txid)
  {
    forall n: nat | HasOutput(u, OutPoint(h, n)) :: OutPoint(h, n) in InputsOf(txs)
  }

  /** The view with the versions of the emptied records worn. */
  ghost function WornBy(u: Utxo, txs: seq<Tx>): Utxo { map h | h in u :: WornIf(u[h], Emptied(u, txs, h)) }

  /** No record with a negative version is emptied. */
  ghost predicate KeepsNegative(u: Utxo, txs: seq<Tx>)
  {
    forall h | h in u && u[h].version < 0 && !u[h].IsPruned() :: !Emptied(u, txs, h)
  }

  lemma EmptiedIsPruned(u: Utxo, v: Utxo, txs: seq<Tx>, h: Txid)
    requires Tracks(u, v, InputsOf(txs)) && h in u
    ensures h in v && (v[h].IsPruned() <==> Emptied(u, txs, h))
  {
    hide InputsOf;
    if v[h].IsPruned() {
      forall n: nat | HasOutput(u, OutPoint(h, n)) ensures OutPoint(h, n) in InputsOf(txs)
      {
        assert !HasOutput(v, OutPoint(h, n));
      }
    } else {
      var n :| 0 <= n < |v[h].vout| && !v[h].vout[n].IsNull();
      assert HasOutput(v, OutPoint(h, n));
    }
  }

  lemma WornAgrees(u: Utxo, v: Utxo, txs: seq<Tx>, r: Utxo, q: Utxo)
    requires Tracks(u, v, InputsOf(txs)) && Equiv(u, r) && Fades(r, q, PrunedIds(v))
    ensures Equiv(WornBy(u, txs), q)
  {
    hide Tracks, InputsOf, Fades, Emptied;
    forall h: Txid ensures Same(Lookup(WornBy(u, txs), h), Lookup(q, h))
    {
      assert Same(Lookup(u, h), Lookup(r, h));
      LookupFades(r, q, PrunedIds(v), h);
      FadesLooks(r, q, PrunedIds(v), h);
      if h in u { EmptiedIsPruned(u, v, txs, h); }
    }
  }

  lemma WornIsSame(u: Utxo, txs: seq<Tx>)
    ensures Equiv(u, WornBy(u, txs)) <==> KeepsNegative(u, txs)
  {
    hide Emptied;
    var x := WornBy(u, txs);
    if Equiv(u, x) {
      forall h | h in u && u[h].version < 0 && !u[h].IsPruned() ensures !Emptied(u, txs, h)
      {
        assert Same(Lookup(u, h), Lookup(x, h));
      }
    }
    if KeepsNegative(u, txs) {
      forall h: Txid ensures Same(Lookup(u, h), Lookup(x, h)) {}
    }
  }

  /** Main result: an accepted block above the genesis block, disconnected with undo data read back from disk,
      is reported clean exactly when every record of height 0 keeps an unspent output. A clean disconnect
      restores the view with the negative versions of the emptied records worn to their last seven bits, so
      it restores the view itself exactly when no record with a negative version was emptied. */
  lemma StoredUndoInvertsConnect(rules: Rules, u: Utxo, block: Block, height: int)
    requires AllWellFormed(u) && AllStorable(u) && height >= 1 && Accepts(rules, u, block, height, false)
    ensures UndoFits(block.txs, StoredUndos(ConnectTxs(u, block.txs, height).1))
    ensures var (v, undos) := ConnectTxs(u, block.txs, height);
            var q := DisconnectTxs(Undone(v, true), block.txs, StoredUndos(undos), height, |block.txs|);
            && (q.clean <==> KeepsHeightZero(u, block.txs))
            && (q.clean ==> Equiv(WornBy(u, block.txs), q.coins) && (Equiv(u, q.coins) <==> KeepsNegative(u, block.txs)))
  {
    hide ConnectTxs, CheckTransaction, TxsOk, KeepsHeightZero, Tracks, Alive, DisconnectTxs, Equiv, AllStorable, AllWellFormed,
      KeepsNegative, Fades, PrunedIds, BlockMarksIn, WornBy;
    var txs := block.txs;
    var (v, undos) := ConnectTxs(u, txs, height);
    UndoInvertsConnect(rules, u, block, height);
    ConnectTracks(rules, u, txs, height);
    MarksPruned(rules, u, txs, height, PrunedIds(v));
    assert txs[..|txs|] == txs;
    EquivSelf(v);
    DisconnectFades(rules, u, v, v, PrunedIds(v), txs, height, |txs|);
    var r, q := DisconnectTxs(Undone(v, true), txs, undos, height, |txs|),
                DisconnectTxs(Undone(v, true), txs, StoredUndos(undos), height, |txs|);
    if q.clean {
      WornAgrees(u, v, txs, r.coins, q.coins);
      WornIsSame(u, txs);
      EquivEuclid(WornBy(u, txs), q.coins, u);
    }
  }

  lemma EquivSelf(v: Utxo)
    ensures Equiv(v, v) && Fades(v, v, PrunedIds(v))
  {}

  lemma EquivEuclid(x: Utxo, y: Utxo, z: Utxo)
    requires Equiv(x, y)
    ensures Equiv(z, x) <==> Equiv(z, y)
  {
    forall h: Txid ensures Same(Lookup(z, h), Lookup(x, h)) <==> Same(Lookup(z, h), Lookup(y, h))
    {
      assert Same(Lookup(x, h), Lookup(y, h));
    }
  }

  /** A record of height 5 with version -1. */
  const NEGATIVE: Coins := Coins(false, [PAYOUT], 5, -1)

  /** An accepted block that empties a record with a negative version: disconnected from stored undo data it is
      reported clean, but the record comes back with version 127. */
  lemma NegativeVersionIsLost()
    ensures Accepts(FREE, map[7 := NEGATIVE], BLOCK120, 120, false)
    ensures var (v, undos) := ConnectTxs(map[7 := NEGATIVE], BLOCK120.txs, 120);
            && UndoFits(BLOCK120.txs, StoredUndos(undos))
            && var q := DisconnectTxs(Undone(v, true), BLOCK120.txs, StoredUndos(undos), 120, 2);
               && q.clean && !Equiv(map[7 := NEGATIVE], q.coins)
               && 7 in q.coins && q.coins[7] == NEGATIVE.(version := 127)
  {
    Accepted120(NEGATIVE);
    NegativeFacts();
    hide *;
    StoredUndoInvertsConnect(FREE, map[7 := NEGATIVE], BLOCK120, 120);
    assert |BLOCK120.txs| == 2;
    var (v, undos) := ConnectTxs(map[7 := NEGATIVE], BLOCK120.txs, 120);
    WornSeven(DisconnectTxs(Undone(v, true), BLOCK120.txs, StoredUndos(undos), 120, 2).coins);
  }

  lemma NegativeFacts()
    ensures var u: Utxo := map[7 := NEGATIVE];
            && AllWellFormed(u) && AllStorable(u) && Emptied(u, BLOCK120.txs, 7)
            && KeepsHeightZero(u, BLOCK120.txs) && !KeepsNegative(u, BLOCK120.txs)
  {
    AllSpent120(NEGATIVE);
    hide InputsOf;
  }

  lemma WornSeven(q: Utxo)
    ensures Equiv(WornBy(map[7 := NEGATIVE], BLOCK120.txs), q) ==> 7 in q && q[7] == NEGATIVE.(version := 127)
  {
    NegativeFacts();
    hide InputsOf, KeepsHeightZero, KeepsNegative, AllStorable, Emptied;
    var x := WornBy(map[7 := NEGATIVE], BLOCK120.txs);
    assert x[7] == NEGATIVE.(version := 127) && !x[7].vout[0].IsNull();
    if Equiv(x, q) { assert Same(Lookup(x, 7), Lookup(q, 7)); }
  }
}
