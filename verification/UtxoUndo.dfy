/** Disconnecting a block inverts connecting it, and exactly when. */
module UtxoUndo {
  import opened CoinRecords
  import opened UtxoSet

  /** Two views agree, a fully spent record counting as an absent one. */
  ghost predicate Equiv(u: Utxo, v: Utxo) { forall h: Txid :: Same(Lookup(u, h), Lookup(v, h)) }

  /** Spending `out` empties a record created at height 0: the undo entry then cannot say so. */
  predicate Loses(u: Utxo, out: OutPoint)
  {
    HasOutput(u, out) && SpendOut(u[out.hash], out.n).0.vout == [] && u[out.hash].height == 0
  }

  predicate NoLoss(u: Utxo, vin: seq<OutPoint>)
  {
    vin == [] || (NoLoss(u, vin[..|vin| - 1]) && !Loses(SpendAll(u, vin[..|vin| - 1]).0, vin[|vin| - 1]))
  }

  predicate NoLossTxs(u: Utxo, txs: seq<Tx>, height: int)
  {
    txs == [] ||
    (var init, tx := txs[..|txs| - 1], txs[|txs| - 1];
     NoLossTxs(u, init, height) && (tx.IsCoinBase() || NoLoss(ConnectTxs(u, init, height).0, tx.vin)))
  }

  /** A block that passed every check, on a view with well-formed records. */
  predicate Connectable(rules: Rules, u: Utxo, txs: seq<Tx>, height: int)
  {
    && AllWellFormed(u)
    && (forall i | 0 <= i < |txs| :: CheckTransaction(txs[i]))
    && (forall i, j | 0 <= i < j < |txs| :: txs[i].id != txs[j].id)
    && NoOverwrite(u, txs) && TxsOk(rules, u, txs, height)
  }

  function Ids(txs: seq<Tx>): set<Txid> { set i | 0 <= i < |txs| :: txs[i].id }

  // ---- one input ----

  lemma RestoreRespectsSame(c: Coins, d: Coins, n: nat, undo: TxInUndo)
    requires Same(c, d)
    ensures RestoreOut(c, n, undo).1 == RestoreOut(d, n, undo).1
    ensures RestoreOut(c, n, undo).1 ==> RestoreOut(c, n, undo) == RestoreOut(d, n, undo)
  {}

  lemma RestoreInputInverts(u: Utxo, v: Utxo, out: OutPoint, clean: bool)
    requires AllWellFormed(u) && HasOutput(u, out) && Equiv(SpendInput(u, out).0, v)
    ensures var r := RestoreInput(Undone(v, clean), out, SpendInput(u, out).1);
            && (r.clean <==> clean && !Loses(u, out))
            && (r.clean ==> Equiv(u, r.coins) && (AllWellFormed(v) ==> AllWellFormed(r.coins)))
  {
    var (rest, undo) := SpendOut(u[out.hash], out.n);
    var w := SpendInput(u, out).0;
    RestoreInvertsSpend(u[out.hash], out.n);
    assert Same(Lookup(w, out.hash), Lookup(v, out.hash));
    RestoreRespectsSame(rest, Lookup(v, out.hash), out.n, undo);
    var r := RestoreInput(Undone(v, clean), out, undo);
    if r.clean {
      forall h: Txid
        ensures Same(Lookup(u, h), Lookup(r.coins, h))
      {
        if h != out.hash { assert Same(Lookup(w, h), Lookup(v, h)); }
      }
    }
  }

  lemma {:induction false} RestoreStaysUnclean(s: Undone, vin: seq<OutPoint>, undos: seq<TxInUndo>)
    requires |vin| == |undos| && !s.clean
    ensures !RestoreAll(s, vin, undos).clean
    decreases |vin|
  {
    hide RestoreOut;
    if vin != [] {
      var k := |vin| - 1;
      RestoreStaysUnclean(RestoreInput(s, vin[k], undos[k]), vin[..k], undos[..k]);
    }
  }

  // ---- the inputs of one transaction ----

  lemma {:induction false} RestoreAllInverts(u: Utxo, v: Utxo, vin: seq<OutPoint>, clean: bool)
    requires AllWellFormed(u) && forall i | 0 <= i < |vin| :: HasOutput(u, vin[i])
    requires forall i, j | 0 <= i < j < |vin| :: vin[i] != vin[j]
    requires Equiv(SpendAll(u, vin).0, v)
    ensures var r := RestoreAll(Undone(v, clean), vin, SpendAll(u, vin).1);
            && (r.clean <==> clean && NoLoss(u, vin))
            && (r.clean ==> Equiv(u, r.coins) && (AllWellFormed(v) ==> AllWellFormed(r.coins)))
    decreases |vin|
  {
    hide SpendInput, HasOutput, RestoreInput, Loses, Equiv;
    if vin != [] {
      var k := |vin| - 1;
      var init, last := vin[..k], vin[k];
      var mid := SpendAll(u, init).0;
      assert HasOutput(u, vin[k]);
      SpendAllRemoves(u, init);
      RestoreInputInverts(mid, v, last, clean);
      var s := RestoreInput(Undone(v, clean), last, SpendInput(mid, last).1);
      var undos := SpendAll(u, vin).1;
      assert undos[..k] == SpendAll(u, init).1;
      assert RestoreAll(Undone(v, clean), vin, undos) == RestoreAll(s, init, undos[..k]);
      if s.clean {
        RestoreAllInverts(u, s.coins, init, s.clean);
      } else {
        RestoreStaysUnclean(s, init, undos[..k]);
      }
    } else {
      assert RestoreAll(Undone(v, clean), vin, SpendAll(u, vin).1) == Undone(v, clean);
    }
  }

  // ---- the outputs of one transaction ----

  lemma ClearedTwice(c: Coins)
    ensures Cleared(Cleared(c)) == Cleared(c)
    ensures c.IsPruned() ==> Cleared(c).IsPruned()
  {
    var d := Cleared(c).vout;
    assert DropUnspendable(d) == d;
  }

  lemma RemoveOutputsInverts(u1: Utxo, v: Utxo, tx: Tx, height: int, clean: bool)
    requires tx.id !in u1 && Equiv(u1[tx.id := CoinsOf(tx, height)], v)
    ensures var r := RemoveOutputs(Undone(v, clean), tx, height);
            r.clean == clean && Equiv(u1, r.coins) && (AllWellFormed(v) ==> AllWellFormed(r.coins))
  {
    var mine := CoinsOf(tx, height);
    var w := u1[tx.id := mine];
    var r := RemoveOutputs(Undone(v, clean), tx, height);
    assert r.clean == clean by {
      assert Same(Lookup(w, tx.id), Lookup(v, tx.id));
      ClearedTwice(Coins(tx.IsCoinBase(), tx.vout, height, tx.version));
      ClearedTwice(Lookup(v, tx.id));
    }
    hide CoinsOf, Cleared;
    forall h: Txid
      ensures Same(Lookup(u1, h), Lookup(r.coins, h))
    {
      assert Same(Lookup(w, h), Lookup(v, h));
    }
  }

  // ---- a whole block ----

  lemma PrefixConnectable(rules: Rules, u: Utxo, txs: seq<Tx>, height: int, k: nat)
    requires 1 <= k <= |txs| && Connectable(rules, u, txs, height)
    ensures Connectable(rules, u, txs[..k - 1], height)
    ensures CheckInputs(rules, ConnectTxs(u, txs[..k - 1], height).0, txs[k - 1], height)
  {
    hide CheckInputs, ConnectTxs, CheckTransaction;
    PrefixOk(rules, u, txs, height, k);
    PrefixOk(rules, u, txs, height, k - 1);
    assert txs[..k][..k - 1] == txs[..k - 1];
  }

  lemma IdsSnoc(txs: seq<Tx>)
    requires txs != []
    ensures Ids(txs) == Ids(txs[..|txs| - 1]) + {txs[|txs| - 1].id}
  {}

  /** What a passed prefix of a block leaves behind: well-formed records under exactly the new keys. */
  lemma {:induction false} ConnectKeeps(rules: Rules, u: Utxo, txs: seq<Tx>, height: int)
    requires Connectable(rules, u, txs, height)
    ensures AllWellFormed(ConnectTxs(u, txs, height).0)
    ensures ConnectTxs(u, txs, height).0.Keys == u.Keys + Ids(txs)
  {
    hide ConnectTx, CheckTransaction, CheckInputs, TxsOk, Ids, AllWellFormed;
    if txs == [] {
      assert Ids(txs) == {} by { NoIds(); }
    } else {
      var k := |txs| - 1;
      PrefixConnectable(rules, u, txs, height, k + 1);
      ConnectKeeps(rules, u, txs[..k], height);
      assert CheckTransaction(txs[k]);
      CheckedInputsPresent(rules, ConnectTxs(u, txs[..k], height).0, txs[k], height);
      ConnectTxWellFormed(ConnectTxs(u, txs[..k], height).0, txs[k], height);
      IdsSnoc(txs);
    }
  }

  lemma NoIds()
    ensures Ids([]) == {}
  {}

  lemma CheckedInputsPresent(rules: Rules, u: Utxo, tx: Tx, height: int)
    requires CheckInputs(rules, u, tx, height)
    ensures InputsPresent(u, tx)
  {}

  /** Entry i-1 of the undo data is what connecting transaction i left. */
  lemma {:induction false} UndoEntry(u: Utxo, txs: seq<Tx>, height: int, i: nat)
    requires 0 <= i < |txs| && txs[0].IsCoinBase()
    requires forall j | 1 <= j < |txs| :: !txs[j].IsCoinBase()
    ensures var undos := ConnectTxs(u, txs, height).1;
            |undos| == |txs| - 1 &&
            (i > 0 ==> undos[i - 1] == ConnectTx(ConnectTxs(u, txs[..i], height).0, txs[i], height).1)
    decreases |txs|
  {
    hide ConnectTx, ConnectTxs;
    var n := |txs| - 1;
    ConnectLast(u, txs, height);
    if n > 0 {
      UndoEntry(u, txs[..n], height, if i < n then i else 0);
      if i < n { assert txs[..n][..i] == txs[..i]; }
    } else {
      ConnectNothing(u, txs[..n], height);
    }
  }

  lemma ConnectLast(u: Utxo, txs: seq<Tx>, height: int)
    requires txs != []
    ensures var n := |txs| - 1;
            var before := ConnectTxs(u, txs[..n], height);
            var last := ConnectTx(before.0, txs[n], height);
            ConnectTxs(u, txs, height).1 == if txs[n].IsCoinBase() then before.1 else before.1 + [last.1]
  {
    hide ConnectTx;
  }

  lemma ConnectNothing(u: Utxo, txs: seq<Tx>, height: int)
    requires txs == []
    ensures ConnectTxs(u, txs, height).1 == []
  {}

  lemma UndoDataFits(u: Utxo, txs: seq<Tx>, height: int)
    requires txs != [] && txs[0].IsCoinBase()
    requires forall j | 1 <= j < |txs| :: !txs[j].IsCoinBase()
    ensures UndoFits(txs, ConnectTxs(u, txs, height).1)
  {
    UndoEntry(u, txs, height, 0);
    var undos := ConnectTxs(u, txs, height).1;
    forall i | 1 <= i < |txs|
      ensures EntryFits(txs, undos, i)
    {
      UndoEntry(u, txs, height, i);
    }
  }

  lemma DisconnectTxInverts(rules: Rules, u: Utxo, v: Utxo, tx: Tx, height: int, clean: bool)
    requires AllWellFormed(u) && CheckTransaction(tx) && tx.id !in u
    requires CheckInputs(rules, u, tx, height) && !tx.IsCoinBase() && Equiv(ConnectTx(u, tx, height).0, v)
    ensures |ConnectTx(u, tx, height).1| == |tx.vin|
    ensures var r := RestoreAll(RemoveOutputs(Undone(v, clean), tx, height), tx.vin, ConnectTx(u, tx, height).1);
            && (r.clean <==> clean && NoLoss(u, tx.vin))
            && (r.clean ==> Equiv(u, r.coins) && (AllWellFormed(v) ==> AllWellFormed(r.coins)))
  {
    hide Equiv, RemoveOutputs, NoLoss;
    SpendAllRemoves(u, tx.vin);
    var u1 := SpendAll(u, tx.vin).0;
    RemoveOutputsInverts(u1, v, tx, height, clean);
    RestoreAllInverts(u, RemoveOutputs(Undone(v, clean), tx, height).coins, tx.vin, clean);
  }

  lemma DisconnectStaysUnclean(s: Undone, txs: seq<Tx>, undos: seq<seq<TxInUndo>>, height: int, k: nat)
    requires UndoFits(txs, undos) && k <= |txs| && !s.clean
    ensures !DisconnectTxs(s, txs, undos, height, k).clean
    decreases k
  {
    hide RemoveOutputs, RestoreInput, RestoreAll;
    if k > 0 {
      var removed := RemoveOutputs(s, txs[k - 1], height);
      assert !removed.clean by { RemoveStaysUnclean(s, txs[k - 1], height); }
      if k > 1 {
        assert EntryFits(txs, undos, k - 1);
        RestoreStaysUnclean(removed, txs[k - 1].vin, undos[k - 2]);
      }
      DisconnectStaysUnclean(DisconnectTx(s, txs, undos, height, k - 1), txs, undos, height, k - 1);
    }
  }

  lemma RemoveStaysUnclean(s: Undone, tx: Tx, height: int)
    requires !s.clean
    ensures !RemoveOutputs(s, tx, height).clean
  {}

  lemma CoinbaseOnly(u: Utxo, txs: seq<Tx>, height: int)
    requires txs != [] && txs[0].IsCoinBase()
    ensures ConnectTxs(u, txs[..1], height).0 == u[txs[0].id := CoinsOf(txs[0], height)]
  {
    assert txs[..1][..0] == [];
  }

  /** Undoing transaction k-1 leads back to the state before it. */
  lemma DisconnectOneInverts(rules: Rules, u: Utxo, v: Utxo, txs: seq<Tx>, height: int, clean: bool, k: nat)
    requires Connectable(rules, u, txs, height) && 1 <= k <= |txs| && txs[0].IsCoinBase()
    requires forall i | 1 <= i < |txs| :: !txs[i].IsCoinBase()
    requires Equiv(ConnectTxs(u, txs[..k], height).0, v)
    ensures UndoFits(txs, ConnectTxs(u, txs, height).1)
    ensures var mid := ConnectTxs(u, txs[..k - 1], height).0;
            var s := DisconnectTx(Undone(v, clean), txs, ConnectTxs(u, txs, height).1, height, k - 1);
            && (s.clean <==> clean && (k == 1 || NoLoss(mid, txs[k - 1].vin)))
            && (s.clean ==> Equiv(mid, s.coins) && (AllWellFormed(v) ==> AllWellFormed(s.coins)))
  {
    hide *;
    UndoDataFits(u, txs, height);
    BeforeTx(rules, u, txs, height, k);
    var undos := ConnectTxs(u, txs, height).1;
    UndoTx(Undone(v, clean), txs, undos, height, k);
    if k == 1 {
      CoinbaseOnly(u, txs, height);
      RemoveOutputsInverts(u, v, txs[0], height, clean);
    } else {
      UndoEntry(u, txs, height, k - 1);
      DisconnectTxInverts(rules, ConnectTxs(u, txs[..k - 1], height).0, v, txs[k - 1], height, clean);
    }
  }

  /** The state before transaction k-1, and its checks there. */
  lemma BeforeTx(rules: Rules, u: Utxo, txs: seq<Tx>, height: int, k: nat)
    requires Connectable(rules, u, txs, height) && 1 <= k <= |txs|
    ensures var mid, tx := ConnectTxs(u, txs[..k - 1], height).0, txs[k - 1];
            && AllWellFormed(mid) && CheckTransaction(tx) && CheckInputs(rules, mid, tx, height) && tx.id !in mid
            && ConnectTxs(u, txs[..k], height).0 == ConnectTx(mid, tx, height).0 && (k == 1 ==> mid == u)
  {
    hide ConnectTx, CheckTransaction, CheckInputs, AllWellFormed;
    assert txs[..k][..k - 1] == txs[..k - 1];
    PrefixConnectable(rules, u, txs, height, k);
    ConnectKeeps(rules, u, txs[..k - 1], height);
    assert CheckTransaction(txs[k - 1]);
  }

  lemma UndoTx(s: Undone, txs: seq<Tx>, undos: seq<seq<TxInUndo>>, height: int, k: nat)
    requires UndoFits(txs, undos) && 1 <= k <= |txs|
    ensures k > 1 ==> |txs[k - 1].vin| == |undos[k - 2]|
    ensures var removed := RemoveOutputs(s, txs[k - 1], height);
            DisconnectTx(s, txs, undos, height, k - 1) == if k == 1 then removed else RestoreAll(removed, txs[k - 1].vin, undos[k - 2])
  {
    hide RemoveOutputs, RestoreAll;
    if k > 1 { assert EntryFits(txs, undos, k - 1); }
  }

  lemma {:induction false} DisconnectInverts(
      rules: Rules, u: Utxo, v: Utxo, txs: seq<Tx>, height: int, clean: bool, k: nat)
    requires Connectable(rules, u, txs, height) && k <= |txs| && txs != [] && txs[0].IsCoinBase()
    requires forall i | 1 <= i < |txs| :: !txs[i].IsCoinBase()
    requires Equiv(ConnectTxs(u, txs[..k], height).0, v)
    ensures UndoFits(txs, ConnectTxs(u, txs, height).1)
    ensures var r := DisconnectTxs(Undone(v, clean), txs, ConnectTxs(u, txs, height).1, height, k);
            && (r.clean <==> clean && NoLossTxs(u, txs[..k], height))
            && (r.clean ==> Equiv(u, r.coins) && (AllWellFormed(v) ==> AllWellFormed(r.coins)))
    decreases k
  {
    hide Equiv, ConnectTxs, DisconnectTx, NoLoss, Connectable, AllWellFormed;
    UndoDataFits(u, txs, height);
    if k == 0 {
      assert ConnectTxs(u, txs[..0], height).0 == u by { EmptyConnect(u, height); assert txs[..0] == []; }
    } else {
      assert txs[..k][..k - 1] == txs[..k - 1];
      DisconnectOneInverts(rules, u, v, txs, height, clean, k);
      var undos := ConnectTxs(u, txs, height).1;
      var s := DisconnectTx(Undone(v, clean), txs, undos, height, k - 1);
      if s.clean {
        DisconnectInverts(rules, u, s.coins, txs, height, s.clean, k - 1);
      } else {
        DisconnectStaysUnclean(s, txs, undos, height, k - 1);
      }
    }
  }

  lemma EmptyConnect(u: Utxo, height: int)
    ensures ConnectTxs(u, [], height) == (u, [])
  {}

  // ---- when it is clean, in terms of the view before the block ----

  function InputsOf(txs: seq<Tx>): set<OutPoint>
  {
    if txs == [] then {}
    else
      var tx := txs[|txs| - 1];
      InputsOf(txs[..|txs| - 1]) + (if tx.IsCoinBase() then {} else SetOf(tx.vin))
  }

  /** Each record created at height 0 keeps an output that the block does not spend. */
  ghost predicate KeepsHeightZero(u: Utxo, txs: seq<Tx>)
  {
    forall h | h in u && u[h].height == 0 && !u[h].IsPruned() ::
      exists n: nat :: HasOutput(u, OutPoint(h, n)) && OutPoint(h, n) !in InputsOf(txs)
  }

  /** `w` is `u` after spending `spent` and adding records of positive height. */
  ghost predicate Tracks(u: Utxo, w: Utxo, spent: set<OutPoint>)
  {
    && AllWellFormed(w)
    && (forall h | h in u :: h in w && w[h].height == u[h].height)
    && (forall h | h in w && h !in u :: w[h].height != 0)
    && (forall o: OutPoint | o.hash in u :: HasOutput(w, o) <==> HasOutput(u, o) && o !in spent)
  }

  predicate Alive(u: Utxo, w: Utxo)
  {
    forall h | h in u && u[h].height == 0 && !u[h].IsPruned() :: !Lookup(w, h).IsPruned()
  }

  lemma SpendTracks(u: Utxo, w: Utxo, spent: set<OutPoint>, out: OutPoint)
    requires Tracks(u, w, spent) && HasOutput(w, out)
    ensures Tracks(u, SpendInput(w, out).0, spent + {out})
    ensures Alive(u, SpendInput(w, out).0) <==> Alive(u, w) && !Loses(w, out)
  {
    var w' := SpendInput(w, out).0;
    SpendInputRemoves(w, out);
    var rest := SpendOut(w[out.hash], out.n).0;
    assert rest.IsPruned() <==> rest.vout == [] by {
      if rest.vout != [] { assert !rest.vout[|rest.vout| - 1].IsNull(); }
    }
    assert Tracks(u, w', spent + {out}) by { hide Alive, Loses; }
    if Loses(w, out) {
      assert out.hash in u && HasOutput(u, out);
      assert !u[out.hash].IsPruned();
    }
  }

  function SetOf(vin: seq<OutPoint>): set<OutPoint> { set o | o in vin }

  lemma SetOfSnoc(vin: seq<OutPoint>)
    requires vin != []
    ensures SetOf(vin) == SetOf(vin[..|vin| - 1]) + {vin[|vin| - 1]}
  {
    assert vin == vin[..|vin| - 1] + [vin[|vin| - 1]];
  }

  lemma {:induction false} SpendAllTracks(u: Utxo, w: Utxo, spent: set<OutPoint>, vin: seq<OutPoint>)
    requires Tracks(u, w, spent) && forall i | 0 <= i < |vin| :: HasOutput(w, vin[i])
    requires forall i, j | 0 <= i < j < |vin| :: vin[i] != vin[j]
    ensures Tracks(u, SpendAll(w, vin).0, spent + SetOf(vin))
    ensures Alive(u, SpendAll(w, vin).0) <==> Alive(u, w) && NoLoss(w, vin)
  {
    hide Tracks, Alive, Loses, HasOutput, SpendInput;
    if vin == [] {
      assert spent + SetOf(vin) == spent;
    } else {
      hide SetOf;
      var k := |vin| - 1;
      SpendAllTracks(u, w, spent, vin[..k]);
      assert HasOutput(w, vin[k]) && vin[k] !in vin[..k];
      TracksWellFormed(u, w, spent);
      SpendAllRemoves(w, vin[..k]);
      SpendTracks(u, SpendAll(w, vin[..k]).0, spent + SetOf(vin[..k]), vin[k]);
      SetOfSnoc(vin);
      assert spent + SetOf(vin[..k]) + {vin[k]} == spent + SetOf(vin);
    }
  }

  lemma TracksWellFormed(u: Utxo, w: Utxo, spent: set<OutPoint>)
    requires Tracks(u, w, spent)
    ensures AllWellFormed(w)
  {}

  /** Adding a record of positive height under a new key changes nothing that is tracked. */
  lemma CreateTracks(u: Utxo, w: Utxo, spent: set<OutPoint>, id: Txid, c: Coins)
    requires Tracks(u, w, spent) && id !in u && c.WellFormed() && c.height != 0
    ensures Tracks(u, w[id := c], spent)
    ensures Alive(u, w[id := c]) <==> Alive(u, w)
  {
    assert forall o: OutPoint | o.hash in u :: HasOutput(w[id := c], o) == HasOutput(w, o);
  }

  lemma {:induction false} ConnectTracks(rules: Rules, u: Utxo, txs: seq<Tx>, height: int)
    requires Connectable(rules, u, txs, height) && height != 0
    ensures Tracks(u, ConnectTxs(u, txs, height).0, InputsOf(txs))
    ensures NoLossTxs(u, txs, height) <==> Alive(u, ConnectTxs(u, txs, height).0)
  {
    hide Tracks, Alive, NoLoss, CheckTransaction, CheckInputs, TxsOk, CoinsOf;
    if txs == [] {
      NothingTracks(u);
    } else {
      var k := |txs| - 1;
      var init, tx := txs[..k], txs[k];
      PrefixConnectable(rules, u, txs, height, k + 1);
      ConnectTracks(rules, u, init, height);
      var w := ConnectTxs(u, init, height).0;
      assert CheckTransaction(txs[k]) && tx.id !in u;
      CheckedInputsPresent(rules, w, tx, height);
      CreatedBy(tx, height);
      if tx.IsCoinBase() {
        CreateTracks(u, w, InputsOf(init), tx.id, CoinsOf(tx, height));
        assert InputsOf(txs) == InputsOf(init);
      } else {
        CheckedPlain(tx);
        SpendAllTracks(u, w, InputsOf(init), tx.vin);
        CreateTracks(u, SpendAll(w, tx.vin).0, InputsOf(txs), tx.id, CoinsOf(tx, height));
      }
    }
  }

  lemma NothingTracks(u: Utxo)
    requires AllWellFormed(u)
    ensures Tracks(u, u, {}) && Alive(u, u)
  {}

  lemma CheckedPlain(tx: Tx)
    requires CheckTransaction(tx) && !tx.IsCoinBase()
    ensures PlainInputs(tx.vin)
  {}

  lemma CreatedBy(tx: Tx, height: int)
    requires CheckTransaction(tx)
    ensures CoinsOf(tx, height).WellFormed() && CoinsOf(tx, height).height == height
  {
    CreatedWellFormed(tx, height);
  }

  lemma AliveMeansKept(u: Utxo, w: Utxo, txs: seq<Tx>)
    requires Tracks(u, w, InputsOf(txs))
    ensures Alive(u, w) <==> KeepsHeightZero(u, txs)
  {
    hide InputsOf;
    forall h | h in u && u[h].height == 0 && !u[h].IsPruned()
      ensures !Lookup(w, h).IsPruned() <==>
              exists n: nat :: HasOutput(u, OutPoint(h, n)) && OutPoint(h, n) !in InputsOf(txs)
    {
      if !w[h].IsPruned() {
        var n :| 0 <= n < |w[h].vout| && !w[h].vout[n].IsNull();
        assert HasOutput(w, OutPoint(h, n));
      }
      if n: nat :| HasOutput(u, OutPoint(h, n)) && OutPoint(h, n) !in InputsOf(txs) {
        assert HasOutput(w, OutPoint(h, n));
      }
    }
  }

  /** Main result: replaying the undo data of an accepted block above the genesis block reports clean
      exactly when every record of height 0 keeps an unspent output, and a clean replay restores the view. */
  lemma UndoInvertsConnect(rules: Rules, u: Utxo, block: Block, height: int)
    requires AllWellFormed(u) && height >= 1 && Accepts(rules, u, block, height, false)
    ensures UndoFits(block.txs, ConnectTxs(u, block.txs, height).1)
    ensures var (v, undos) := ConnectTxs(u, block.txs, height);
            var r := DisconnectTxs(Undone(v, true), block.txs, undos, height, |block.txs|);
            (r.clean <==> KeepsHeightZero(u, block.txs)) && (r.clean ==> Equiv(u, r.coins))
  {
    hide ConnectTxs, CheckTransaction, TxsOk, KeepsHeightZero, Tracks, Alive, DisconnectTxs;
    var txs := block.txs;
    var v := ConnectTxs(u, txs, height).0;
    assert txs[..|txs|] == txs;
    assert Equiv(v, v);
    DisconnectInverts(rules, u, v, txs, height, true, |txs|);
    ConnectTracks(rules, u, txs, height);
    AliveMeansKept(u, v, txs);
  }

  /** In particular, above height 0 nothing is ever lost. */
  lemma SpendsAboveGenesisKeep(u: Utxo, txs: seq<Tx>)
    requires forall o | o in InputsOf(txs) && o.hash in u :: u[o.hash].height != 0
    ensures KeepsHeightZero(u, txs)
  {
    forall h | h in u && u[h].height == 0 && !u[h].IsPruned()
      ensures exists n: nat :: HasOutput(u, OutPoint(h, n)) && OutPoint(h, n) !in InputsOf(txs)
    {
      var n :| 0 <= n < |u[h].vout| && !u[h].vout[n].IsNull();
      assert HasOutput(u, OutPoint(h, n)) && OutPoint(h, n) !in InputsOf(txs);
    }
  }

  // ---- a block that cannot be undone ----

  /** No subsidy, every script succeeds. */
  const FREE: Rules := Rules((h: int, pok: bool) => 0, (tx: Tx, i: nat, s: Script) => true)

  const PAYOUT: TxOut := TxOut(5, [])

  /** The genesis payout, the only record, matured. */
  const GENESIS: Coins := Coins(true, [PAYOUT], 0, 1)
  const VIEW0: Utxo := map[7 := GENESIS]

  const REWARD: Tx := Tx(8, 1, [OutPoint(0, NULL_INDEX)], [TxOut(0, [])])
  const SPENDER: Tx := Tx(9, 1, [OutPoint(7, 0)], [PAYOUT])
  const BLOCK120: Block := Block([REWARD, SPENDER], false)

  /** A record like the genesis payout, whose one output can be spent at height 120. */
  predicate Payer(g: Coins) { g.vout == [PAYOUT] && (g.coinBase ==> g.height <= 0) }

  lemma EmptiesPayer(g: Coins)
    requires g.vout == [PAYOUT]
    ensures SpendOut(g, 0) == (g.(vout := []), TxInUndo(PAYOUT, g.coinBase, g.height, g.version))
  {
    assert g.vout[0 := NULL_OUT] == [NULL_OUT];
    assert Trim([NULL_OUT]) == [];
  }

  lemma SpendOne(u: Utxo, out: OutPoint)
    ensures SpendAll(u, [out]) == (SpendInput(u, out).0, [SpendInput(u, out).1])
  {
    hide SpendInput;
    var vin := [out];
    assert vin[..|vin| - 1] == [] && vin[|vin| - 1] == out;
    assert SpendAll(u, []) == (u, []);
    assert [] + [SpendInput(u, out).1] == [SpendInput(u, out).1];
  }

  lemma SpendPayer(u: Utxo, g: Coins)
    requires 7 in u && u[7] == g && Payer(g)
    ensures SpendInput(u, OutPoint(7, 0)) == (u[7 := g.(vout := [])], TxInUndo(PAYOUT, g.coinBase, g.height, g.version))
  {
    EmptiesPayer(g);
    hide SpendOut;
    assert HasOutput(u, OutPoint(7, 0));
  }

  lemma ConnectReward(u: Utxo)
    ensures ConnectTxs(u, [REWARD], 120) == (u[8 := CoinsOf(REWARD, 120)], [])
  {
    hide CoinsOf;
    assert [REWARD][..0] == [];
    EmptyConnect(u, 120);
    assert REWARD.vin[0].IsNull() && REWARD.IsCoinBase();
  }

  lemma ConnectSpender(u: Utxo, g: Coins)
    requires 7 in u && u[7] == g && Payer(g)
    ensures ConnectTx(u, SPENDER, 120) ==
            (u[7 := g.(vout := [])][9 := CoinsOf(SPENDER, 120)], [TxInUndo(PAYOUT, g.coinBase, g.height, g.version)])
  {
    SpendOne(u, OutPoint(7, 0));
    SpendPayer(u, g);
    hide CoinsOf, SpendAll, SpendInput;
    assert !SPENDER.vin[0].IsNull() && !SPENDER.IsCoinBase();
  }

  /** The views along the block, and its undo data. */
  lemma Connecting120(g: Coins)
    requires Payer(g)
    ensures ConnectTxs(map[7 := g], [REWARD], 120) == (map[7 := g][8 := CoinsOf(REWARD, 120)], [])
    ensures ConnectTxs(map[7 := g], BLOCK120.txs, 120) ==
            (map[7 := g][8 := CoinsOf(REWARD, 120)][7 := g.(vout := [])][9 := CoinsOf(SPENDER, 120)],
             [[TxInUndo(PAYOUT, g.coinBase, g.height, g.version)]])
  {
    hide CoinsOf, ConnectTx;
    ConnectReward(map[7 := g]);
    ConnectSpender(map[7 := g][8 := CoinsOf(REWARD, 120)], g);
    var txs := BLOCK120.txs;
    assert txs[..|txs| - 1] == [REWARD] && txs[|txs| - 1] == SPENDER;
    assert !SPENDER.vin[0].IsNull() && !SPENDER.IsCoinBase();
    var e := TxInUndo(PAYOUT, g.coinBase, g.height, g.version);
    assert [] + [[e]] == [[e]];
  }

  lemma ChecksPass()
    ensures CheckTransaction(REWARD) && CheckTransaction(SPENDER) && CheckBlock(BLOCK120)
  {
    assert REWARD.vin[0].IsNull();
    assert !SPENDER.vin[0].IsNull();
    OneValue(TxOut(0, []));
    OneValue(PAYOUT);
  }

  lemma OneValue(o: TxOut)
    ensures ValueOut([o]) == o.value && ValueOut([]) == 0
    ensures forall k | 0 <= k <= 1 :: ValueOut([o][..k]) == if k == 0 then 0 else o.value
  {
    assert [o][..0] == [] && [o][..1] == [o];
  }

  /** The block passes every check on that view. */
  lemma Accepted120(g: Coins)
    requires Payer(g)
    ensures Accepts(FREE, map[7 := g], BLOCK120, 120, false)
  {
    ChecksPass();
    Connecting120(g);
    OneValue(PAYOUT);
    OneValue(TxOut(0, []));
    hide ConnectTxs, CheckTransaction, CoinsOf;
    var view := map[7 := g];
    var u := view[8 := CoinsOf(REWARD, 120)];
    assert BLOCK120.txs[..1] == [REWARD] && [REWARD][..0] == [];
    assert REWARD.vin[0].IsNull() && !SPENDER.vin[0].IsNull();
    assert HasOutput(u, OutPoint(7, 0));
    assert SPENDER.vin[..1] == SPENDER.vin && SPENDER.vin[..0] == [];
    assert ValueIn(u, []) == 0 && ValueIn(u, SPENDER.vin) == 5;
    assert InputOk(FREE, u, SPENDER, 120, 0);
    assert CheckInputs(FREE, u, SPENDER, 120);
    assert TxsOk(FREE, view, [], 120) && TxsOk(FREE, view, [REWARD], 120) && TxsOk(FREE, view, BLOCK120.txs, 120);
    assert Fees(FREE, view, [], 120) == 0 && Fees(FREE, view, [REWARD], 120) == 0;
  }

  /** The block spends the only output of the record. */
  lemma AllSpent120(g: Coins)
    requires Payer(g)
    ensures 7 in map[7 := g] && !g.IsPruned() && AllWellFormed(map[7 := g])
    ensures forall n: nat | HasOutput(map[7 := g], OutPoint(7, n)) :: OutPoint(7, n) in InputsOf(BLOCK120.txs)
  {
    assert BLOCK120.txs[..1] == [REWARD];
    assert !SPENDER.vin[0].IsNull();
    assert SPENDER.vin[0] in SetOf(SPENDER.vin);
    assert OutPoint(7, 0) in InputsOf(BLOCK120.txs);
    assert !g.vout[0].IsNull();
    forall n: nat | HasOutput(map[7 := g], OutPoint(7, n)) ensures OutPoint(7, n) in InputsOf(BLOCK120.txs) { assert n == 0; }
  }

  lemma NotKept()
    ensures !KeepsHeightZero(VIEW0, BLOCK120.txs) && AllWellFormed(VIEW0)
  {
    AllSpent120(GENESIS);
    hide InputsOf;
  }

  /** An accepted block, at height 120, that spends the last output of a record of height 0: disconnecting it
      is reported unclean. */
  lemma HeightZeroRecordIsLost()
    ensures Accepts(FREE, VIEW0, BLOCK120, 120, false)
    ensures var (v, undos) := ConnectTxs(VIEW0, BLOCK120.txs, 120);
            UndoFits(BLOCK120.txs, undos) && !DisconnectTxs(Undone(v, true), BLOCK120.txs, undos, 120, 2).clean
  {
    hide Accepts, ConnectTxs, DisconnectTxs, KeepsHeightZero;
    Accepted120(GENESIS);
    NotKept();
    UndoInvertsConnect(FREE, VIEW0, BLOCK120, 120);
  }
}
