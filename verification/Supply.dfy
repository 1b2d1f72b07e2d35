/** Conservation of value: what a block adds to the total of unspent outputs. */
module Supply {
  import opened CoinRecords
  import opened UtxoSet
  import opened UtxoUndo

  /** The value of the outputs that are still unspent. */
  function Unspent(vout: seq<TxOut>): int
  {
    if vout == [] then 0
    else Unspent(vout[..|vout| - 1]) + (if vout[|vout| - 1].IsNull() then 0 else vout[|vout| - 1].value)
  }

  ghost function Total(u: Utxo): int
  {
    if u.Keys == {} then 0
    else
      var h :| h in u.Keys;
      Unspent(u[h].vout) + Total(u - {h})
  }

  lemma {:induction false} TotalTakeOut(u: Utxo, h: Txid)
    requires h in u
    ensures Total(u) == Unspent(u[h].vout) + Total(u - {h})
    decreases |u|
  {
    var g :| g in u.Keys && Total(u) == Unspent(u[g].vout) + Total(u - {g});
    if g != h {
      TotalTakeOut(u - {g}, h);
      TotalTakeOut(u - {h}, g);
      assert u - {g} - {h} == u - {h} - {g};
    }
  }

  lemma TotalUpdate(u: Utxo, h: Txid, c: Coins)
    ensures Total(u[h := c]) == Total(u) - Unspent(Lookup(u, h).vout) + Unspent(c.vout)
  {
    hide Unspent;
    TotalTakeOut(u[h := c], h);
    assert u[h := c] - {h} == u - {h};
    if h in u {
      TotalTakeOut(u, h);
    } else {
      assert u - {h} == u;
      NothingUnspent([]);
    }
  }

  lemma {:induction false} NothingUnspent(vout: seq<TxOut>)
    requires forall i | 0 <= i < |vout| :: vout[i].IsNull()
    ensures Unspent(vout) == 0
  {
    if vout != [] { NothingUnspent(vout[..|vout| - 1]); }
  }

  /** Views that agree have the same total. */
  lemma {:induction false} EquivTotal(u: Utxo, v: Utxo)
    requires Equiv(u, v)
    ensures Total(u) == Total(v)
    decreases |u|
  {
    if u.Keys == {} {
      AllPrunedTotal(u, v);
    } else {
      var h :| h in u.Keys;
      TotalTakeOut(u, h);
      assert Same(Lookup(u, h), Lookup(v, h));
      if u[h].IsPruned() { NothingUnspent(u[h].vout); NothingUnspent(Lookup(v, h).vout); }
      if h in v { TotalTakeOut(v, h); } else { assert v - {h} == v; }
      assert Equiv(u - {h}, v - {h}) by {
        forall g: Txid
          ensures Same(Lookup(u - {h}, g), Lookup(v - {h}, g))
        {
          assert Same(Lookup(u, g), Lookup(v, g));
        }
      }
      EquivTotal(u - {h}, v - {h});
    }
  }

  lemma {:induction false} AllPrunedTotal(u: Utxo, v: Utxo)
    requires Equiv(u, v) && u.Keys == {}
    ensures Total(v) == 0
    decreases |v|
  {
    if v.Keys != {} {
      var h :| h in v.Keys;
      TotalTakeOut(v, h);
      assert Same(Lookup(u, h), Lookup(v, h));
      NothingUnspent(v[h].vout);
      forall g: Txid
        ensures Same(Lookup(u, g), Lookup(v - {h}, g))
      {
        assert Same(Lookup(u, g), Lookup(v, g));
      }
      AllPrunedTotal(u, v - {h});
    }
  }

  lemma UnspentSplit(a: seq<TxOut>, b: seq<TxOut>)
    ensures Unspent(a + b) == Unspent(a) + Unspent(b)
  {
    if b == [] {
      assert a + b == a;
    } else {
      UnspentSplit(a, b[..|b| - 1]);
      assert (a + b)[..|a + b| - 1] == a + b[..|b| - 1];
    }
  }

  lemma UnspentTrim(vout: seq<TxOut>)
    ensures Unspent(Trim(vout)) == Unspent(vout)
  {
    var r := Trim(vout);
    UnspentSplit(r, vout[|r|..]);
    NothingUnspent(vout[|r|..]);
    assert r + vout[|r|..] == vout;
  }

  lemma UnspentBlank(vout: seq<TxOut>, n: nat)
    requires n < |vout| && !vout[n].IsNull()
    ensures Unspent(vout[n := NULL_OUT]) == Unspent(vout) - vout[n].value
  {
    hide Unspent;
    var a, b := vout[..n], vout[n + 1..];
    assert vout == a + [vout[n]] + b && vout[n := NULL_OUT] == a + [NULL_OUT] + b;
    UnspentSplit(a + [vout[n]], b);
    UnspentSplit(a, [vout[n]]);
    UnspentSplit(a + [NULL_OUT], b);
    UnspentSplit(a, [NULL_OUT]);
    UnspentOne(vout[n]);
    UnspentOne(NULL_OUT);
  }

  lemma UnspentOne(o: TxOut)
    ensures Unspent([o]) == if o.IsNull() then 0 else o.value
  {
    assert [o][..0] == [];
  }

  // ---- one transaction ----

  /** Spending one output lowers the total by its value and leaves the others as they were. */
  lemma SpendInputTotal(u: Utxo, out: OutPoint)
    requires AllWellFormed(u) && HasOutput(u, out)
    ensures Total(SpendInput(u, out).0) == Total(u) - OutputFor(u, out).value
    ensures forall o | HasOutput(SpendInput(u, out).0, o) :: HasOutput(u, o) && OutputFor(SpendInput(u, out).0, o) == OutputFor(u, o)
  {
    var c := u[out.hash];
    TotalUpdate(u, out.hash, SpendOut(c, out.n).0);
    UnspentBlank(c.vout, out.n);
    UnspentTrim(c.vout[out.n := NULL_OUT]);
    SpendInputRemoves(u, out);
  }

  lemma {:induction false} SpendAllTotal(u: Utxo, vin: seq<OutPoint>)
    requires AllWellFormed(u) && forall i | 0 <= i < |vin| :: HasOutput(u, vin[i])
    requires forall i, j | 0 <= i < j < |vin| :: vin[i] != vin[j]
    ensures Total(SpendAll(u, vin).0) == Total(u) - ValueIn(u, vin)
    ensures forall o | HasOutput(SpendAll(u, vin).0, o) :: HasOutput(u, o) && OutputFor(SpendAll(u, vin).0, o) == OutputFor(u, o)
  {
    hide SpendInput, HasOutput, Total, OutputFor;
    if vin != [] {
      var k := |vin| - 1;
      SpendAllTotal(u, vin[..k]);
      SpendAllRemoves(u, vin[..k]);
      assert HasOutput(u, vin[k]) && vin[k] !in vin[..k];
      SpendInputTotal(SpendAll(u, vin[..k]).0, vin[k]);
    }
  }

  /** The value of outputs that nobody can ever spend. */
  function Burned(tx: Tx): int { ValueOut(tx.vout) - Unspent(CoinsOf(tx, 0).vout) }

  function BurnedAll(txs: seq<Tx>): int
  {
    if txs == [] then 0 else BurnedAll(txs[..|txs| - 1]) + Burned(txs[|txs| - 1])
  }

  lemma {:induction false} UnspentAtMostValueOut(vout: seq<TxOut>)
    requires forall i | 0 <= i < |vout| :: vout[i].value >= 0
    ensures 0 <= Unspent(DropUnspendable(vout)) <= ValueOut(vout)
  {
    if vout != [] {
      var k := |vout| - 1;
      UnspentAtMostValueOut(vout[..k]);
      var kept := DropUnspendable(vout);
      assert kept[..k] == DropUnspendable(vout[..k]);
      assert Unspent(kept) == Unspent(kept[..k]) + (if kept[k].IsNull() then 0 else kept[k].value);
    }
  }

  lemma BurnedNonNegative(tx: Tx)
    requires CheckTransaction(tx)
    ensures Burned(tx) >= 0
  {
    UnspentTrim(DropUnspendable(tx.vout));
    UnspentAtMostValueOut(tx.vout);
  }

  lemma ConnectTxTotal(u: Utxo, tx: Tx, height: int)
    requires AllWellFormed(u) && CheckTransaction(tx) && InputsPresent(u, tx) && tx.id !in u
    ensures Total(ConnectTx(u, tx, height).0)
            == Total(u) - Fee(u, tx) - Burned(tx) + (if tx.IsCoinBase() then ValueOut(tx.vout) else 0)
  {
    hide Total;
    assert CoinsOf(tx, height).vout == CoinsOf(tx, 0).vout;
    if !tx.IsCoinBase() {
      SpendAllTotal(u, tx.vin);
      SpendAllRemoves(u, tx.vin);
      TotalUpdate(SpendAll(u, tx.vin).0, tx.id, CoinsOf(tx, height));
    } else {
      TotalUpdate(u, tx.id, CoinsOf(tx, height));
    }
    NothingUnspent([]);
  }

  // ---- a block ----

  function Coinbases(txs: seq<Tx>): int
  {
    if txs == [] then 0
    else
      var tx := txs[|txs| - 1];
      Coinbases(txs[..|txs| - 1]) + (if tx.IsCoinBase() then ValueOut(tx.vout) else 0)
  }

  lemma {:induction false} ConnectTotal(rules: Rules, u: Utxo, txs: seq<Tx>, height: int)
    requires Connectable(rules, u, txs, height)
    ensures Total(ConnectTxs(u, txs, height).0) == Total(u) + Coinbases(txs) - Fees(rules, u, txs, height) - BurnedAll(txs)
    ensures BurnedAll(txs) >= 0
  {
    hide Total, CheckTransaction, CheckInputs, ConnectTx, ConnectTxs, Fees, Burned, Fee, ValueOut, BurnedAll, Coinbases, TxsOk;
    if txs == [] {
      NothingConnected(rules, u, txs, height);
    } else {
      var k := |txs| - 1;
      PrefixConnectable(rules, u, txs, height, k + 1);
      ConnectTotal(rules, u, txs[..k], height);
      ConnectKeeps(rules, u, txs[..k], height);
      assert txs == txs[..k] + [txs[k]];
      NextChecked(rules, u, txs[..k], txs[k], height);
      NextConnected(rules, u, txs[..k], txs[k], height);
      var w := ConnectTxs(u, txs[..k], height).0;
      CheckedInputsPresent(rules, w, txs[k], height);
      assert CheckTransaction(txs[k]);
      assert txs[k].id !in w;
      ConnectTxTotal(w, txs[k], height);
      LastPayments(txs);
      BurnedNonNegative(txs[k]);
    }
  }

  lemma NothingConnected(rules: Rules, u: Utxo, txs: seq<Tx>, height: int)
    requires txs == []
    ensures ConnectTxs(u, txs, height).0 == u && TxsOk(rules, u, txs, height) && Fees(rules, u, txs, height) == 0
    ensures Coinbases(txs) == 0 && BurnedAll(txs) == 0
  {}

  lemma LastPayments(txs: seq<Tx>)
    requires txs != []
    ensures var k := |txs| - 1;
            && BurnedAll(txs) == BurnedAll(txs[..k]) + Burned(txs[k])
            && Coinbases(txs) == Coinbases(txs[..k]) + (if txs[k].IsCoinBase() then ValueOut(txs[k].vout) else 0)
  {
    hide Burned, ValueOut;
  }

  lemma {:induction false} OneCoinbase(txs: seq<Tx>)
    requires txs != [] && txs[0].IsCoinBase() && forall i | 1 <= i < |txs| :: !txs[i].IsCoinBase()
    ensures Coinbases(txs) == ValueOut(txs[0].vout)
  {
    if |txs| > 1 { OneCoinbase(txs[..|txs| - 1]); } else { assert txs[..0] == []; }
  }

  /** Main result for one block: the exact change of the total, and its bound by the subsidy. */
  lemma BlockConservesValue(rules: Rules, u: Utxo, block: Block, height: int, genesis: bool)
    requires AllWellFormed(u) && Accepts(rules, u, block, height, genesis)
    ensures Total(ConnectTxs(u, block.txs, height).0)
            == Total(u) + ValueOut(block.txs[0].vout) - Fees(rules, u, block.txs, height) - BurnedAll(block.txs)
    ensures BurnedAll(block.txs) >= 0
    ensures !genesis ==>
      Total(ConnectTxs(u, block.txs, height).0) <= Total(u) + rules.subsidy(height, block.pok)
  {
    hide Total, CheckTransaction, ConnectTxs, TxsOk;
    ConnectTotal(rules, u, block.txs, height);
    OneCoinbase(block.txs);
  }
}
