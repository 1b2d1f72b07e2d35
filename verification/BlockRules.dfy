/** The rules a block must obey, stated over the history of outputs and not over a running view; and the proof that
    connecting accepts exactly the blocks that obey them and leaves exactly the outputs that history says. */
module BlockRules {
  import opened Basics
  import opened CoinRecords
  import opened UtxoSet
  import opened UtxoUndo

  /** An output as it was made, with the record data that spending it needs. */
  datatype Made = Made(out: TxOut, coinBase: bool, height: int, version: int)

  predicate Mints(tx: Tx) { 1 <= |tx.vin| <= 25 && forall i | 0 <= i < |tx.vin| :: tx.vin[i].hash == 0 && tx.vin[i].n == 0xFFFF_FFFF }

  predicate Burned(o: TxOut) { |o.script| > 0 && o.script[0] == 0x6a }

  predicate Affordable(v: int) { 0 <= v <= 1_200_000_000_000_000 }

  /** What an outpoint names after some transactions of a block, spent or not: an output of the last transaction with
      its id, or one of the view before the block. Provably unspendable outputs are never made. */
  function MakerOf(u: Utxo, txs: seq<Tx>, height: int, o: OutPoint): Option<Made>
  {
    if txs == [] then
      if o.hash in u && o.n < |u[o.hash].vout| && u[o.hash].vout[o.n].value != -1
      then Some(Made(u[o.hash].vout[o.n], u[o.hash].coinBase, u[o.hash].height, u[o.hash].version)) else None
    else
      var tx := txs[|txs| - 1];
      if tx.id == o.hash then
        if o.n < |tx.vout| && !Burned(tx.vout[o.n]) then Some(Made(tx.vout[o.n], Mints(tx), height, tx.version)) else None
      else MakerOf(u, txs[..|txs| - 1], height, o)
  }

  /** Some transaction that does not mint has the outpoint among its inputs. */
  ghost predicate SpentBy(txs: seq<Tx>, o: OutPoint) { exists k :: 0 <= k < |txs| && !Mints(txs[k]) && o in txs[k].vin }

  /** The sum of the first outputs. */
  function Total(vout: seq<TxOut>): int { if vout == [] then 0 else vout[0].value + Total(vout[1..]) }

  /** The value of the first `n` inputs of a transaction that comes after `before`. */
  function Spending(u: Utxo, before: seq<Tx>, height: int, vin: seq<OutPoint>, n: nat): int
    requires n <= |vin|
  {
    if n == 0 then 0
    else
      var m := MakerOf(u, before, height, vin[n - 1]);
      Spending(u, before, height, vin, n - 1) + (if m.Some? then m.value.out.value else 0)
  }

  /** Input `i` of a transaction names an output that was made, is not spent yet, is mature, and whose script agrees. */
  ghost predicate LawfulInput(rules: Rules, u: Utxo, before: seq<Tx>, tx: Tx, height: int, i: nat)
    requires i < |tx.vin|
  {
    var o := tx.vin[i];
    var m := MakerOf(u, before, height, o);
    && m.Some? && !SpentBy(before, o)
    && (m.value.coinBase ==> height - m.value.height >= 120 || m.value.out.value == 0)
    && Affordable(m.value.out.value) && Affordable(Spending(u, before, height, tx.vin, i + 1))
    && rules.scriptOk(tx, i, m.value.out.script)
  }

  ghost predicate LawfulSpends(rules: Rules, u: Utxo, before: seq<Tx>, tx: Tx, height: int)
  {
    Mints(tx) ||
    (&& (forall i | 0 <= i < |tx.vin| :: LawfulInput(rules, u, before, tx, height, i))
     && Spending(u, before, height, tx.vin, |tx.vin|) >= Total(tx.vout))
  }

  /** What is asked of a transaction by itself. */
  ghost predicate LawfulForm(tx: Tx)
  {
    && |tx.vin| > 0 && |tx.vout| > 0
    && (forall i | 0 <= i < |tx.vout| :: Affordable(tx.vout[i].value) && Affordable(Total(tx.vout[..i + 1])))
    && (Mints(tx) ||
        (&& (forall i | 0 <= i < |tx.vin| :: tx.vin[i].hash != 0 || tx.vin[i].n != 0xFFFF_FFFF)
         && (forall i, j | 0 <= i < j < |tx.vin| :: tx.vin[i] != tx.vin[j])))
  }

  /** What the transactions pay to the miner. */
  function Tips(u: Utxo, txs: seq<Tx>, height: int, k: nat): int
    requires k <= |txs|
  {
    if k == 0 then 0
    else
      var tx := txs[k - 1];
      Tips(u, txs, height, k - 1) + (if Mints(tx) then 0 else Spending(u, txs[..k - 1], height, tx.vin, |tx.vin|) - Total(tx.vout))
  }

  ghost predicate Lawful(rules: Rules, u: Utxo, block: Block, height: int, genesis: bool)
  {
    var txs := block.txs;
    && |txs| > 0 && (forall k | 0 <= k < |txs| :: Mints(txs[k]) <==> k == 0)
    && (forall k | 0 <= k < |txs| :: LawfulForm(txs[k]) && txs[k].id !in u)
    && (forall j, k | 0 <= j < k < |txs| :: txs[j].id != txs[k].id)
    && (forall k | 0 <= k < |txs| :: LawfulSpends(rules, u, txs[..k], txs[k], height))
    && (genesis || Total(txs[0].vout) <= rules.subsidy(height, block.pok) + Tips(u, txs, height, |txs|))
  }

  // ---- the two ways to say the same of one transaction ----

  lemma MintsIs(tx: Tx)
    ensures Mints(tx) == tx.IsCoinBase()
  {}

  lemma {:induction false} TotalSnoc(vout: seq<TxOut>, o: TxOut)
    ensures Total(vout + [o]) == Total(vout) + o.value
  {
    if vout != [] {
      assert (vout + [o])[1..] == vout[1..] + [o];
      TotalSnoc(vout[1..], o);
    } else {
      assert (vout + [o])[1..] == [];
    }
  }

  lemma {:induction false} TotalIs(vout: seq<TxOut>)
    ensures Total(vout) == ValueOut(vout)
  {
    if vout != [] {
      var n := |vout| - 1;
      TotalIs(vout[..n]);
      TotalSnoc(vout[..n], vout[n]);
      assert vout == vout[..n] + [vout[n]];
    }
  }

  lemma FormIs(tx: Tx)
    ensures LawfulForm(tx) <==> CheckTransaction(tx)
  {
    MintsIs(tx);
    assert tx.vout[..|tx.vout|] == tx.vout;
    forall k | 0 <= k <= |tx.vout| ensures Total(tx.vout[..k]) == ValueOut(tx.vout[..k])
    {
      TotalIs(tx.vout[..k]);
    }
    assert ValueOut(tx.vout[..0]) == 0;
    hide Total, ValueOut;
    if LawfulForm(tx) {
      forall k | 0 <= k <= |tx.vout| ensures MoneyRange(ValueOut(tx.vout[..k]))
      {
        if k > 0 { assert tx.vout[..(k - 1) + 1] == tx.vout[..k]; }
      }
    }
    if CheckTransaction(tx) {
      forall i | 0 <= i < |tx.vout| ensures Affordable(tx.vout[i].value) && Affordable(Total(tx.vout[..i + 1]))
      {
        assert MoneyRange(ValueOut(tx.vout[..i + 1]));
      }
    }
  }

  // ---- the running view holds what history says ----

  /** The view agrees with history about one outpoint. */
  ghost predicate Agrees(u: Utxo, txs: seq<Tx>, height: int, w: Utxo, o: OutPoint)
  {
    var m := MakerOf(u, txs, height, o);
    && (HasOutput(w, o) <==> m.Some? && !SpentBy(txs, o))
    && (HasOutput(w, o) ==> m.value == RecordOf(w, o))
  }

  function RecordOf(w: Utxo, o: OutPoint): Made
    requires HasOutput(w, o)
  {
    var c := w[o.hash];
    Made(c.vout[o.n], c.coinBase, c.height, c.version)
  }

  lemma SpendKeepsRecord(u: Utxo, out: OutPoint, o: OutPoint)
    requires AllWellFormed(u) && HasOutput(u, out) && HasOutput(u, o) && o != out
    ensures HasOutput(SpendInput(u, out).0, o) && RecordOf(SpendInput(u, out).0, o) == RecordOf(u, o)
  {
    SpendInputRemoves(u, out);
  }

  lemma {:induction false} SpendAllKeepsRecord(u: Utxo, vin: seq<OutPoint>, o: OutPoint)
    requires AllWellFormed(u) && HasOutput(u, o) && o !in vin && forall i | 0 <= i < |vin| :: HasOutput(u, vin[i])
    requires forall i, j | 0 <= i < j < |vin| :: vin[i] != vin[j]
    ensures HasOutput(SpendAll(u, vin).0, o) && RecordOf(SpendAll(u, vin).0, o) == RecordOf(u, o)
  {
    hide HasOutput, RecordOf, SpendInput, AllWellFormed;
    if vin != [] {
      var k := |vin| - 1;
      SpendAllKeepsRecord(u, vin[..k], o);
      SpendAllRemoves(u, vin[..k]);
      assert HasOutput(u, vin[k]) && vin[k] !in vin[..k];
      SpendKeepsRecord(SpendAll(u, vin[..k]).0, vin[k], o);
    }
  }

  /** The record a transaction leaves: its outputs that can be spent. */
  lemma CreatedIs(w: Utxo, tx: Tx, height: int, o: OutPoint)
    requires CheckTransaction(tx) && o.hash == tx.id && tx.id in w && w[tx.id] == CoinsOf(tx, height)
    ensures HasOutput(w, o) <==> o.n < |tx.vout| && !Burned(tx.vout[o.n])
    ensures HasOutput(w, o) ==> RecordOf(w, o) == Made(tx.vout[o.n], Mints(tx), height, tx.version)
  {
    TrimKeepsOutputs(DropUnspendable(tx.vout), o.n);
    MintsIs(tx);
    hide Trim;
  }

  lemma InputsExist(rules: Rules, u: Utxo, txs: seq<Tx>, height: int, k: nat, o: OutPoint)
    requires Connectable(rules, u, txs, height) && k < |txs| && !Mints(txs[k]) && o in txs[k].vin
    ensures o.hash in u.Keys + Ids(txs[..k])
  {
    hide *;
    MintsIs(txs[k]);
    BeforeTx(rules, u, txs, height, k + 1);
    var mid := ConnectTxs(u, txs[..k], height).0;
    CheckedInputsPresent(rules, mid, txs[k], height);
    PrefixConnectable(rules, u, txs, height, k + 1);
    ConnectKeeps(rules, u, txs[..k], height);
    PresentExists(mid, txs[k], o);
  }

  lemma PresentExists(w: Utxo, tx: Tx, o: OutPoint)
    requires InputsPresent(w, tx) && !tx.IsCoinBase() && o in tx.vin
    ensures o.hash in w
  {
    var i :| 0 <= i < |tx.vin| && tx.vin[i] == o;
    assert HasOutput(w, tx.vin[i]);
  }

  /** Nothing of a transaction is spent before it stands in the block, nor by itself. */
  lemma NotSpentYet(rules: Rules, u: Utxo, txs: seq<Tx>, height: int, o: OutPoint)
    requires Connectable(rules, u, txs, height) && txs != [] && o.hash == txs[|txs| - 1].id
    ensures !SpentBy(txs, o)
  {
    var n := |txs| - 1;
    forall k | 0 <= k < |txs| && !Mints(txs[k]) ensures o !in txs[k].vin
    {
      if o in txs[k].vin {
        hide *;
        InputsExist(rules, u, txs, height, k, o);
        NotAmong(rules, u, txs, height, k);
        assert false;
      }
    }
  }

  lemma NotAmong(rules: Rules, u: Utxo, txs: seq<Tx>, height: int, k: nat)
    requires Connectable(rules, u, txs, height) && k < |txs|
    ensures txs[|txs| - 1].id !in u.Keys + Ids(txs[..k])
  {
    hide CheckTransaction, TxsOk, AllWellFormed;
  }

  lemma SpentSnoc(before: seq<Tx>, tx: Tx, o: OutPoint)
    ensures SpentBy(before + [tx], o) <==> SpentBy(before, o) || (!Mints(tx) && o in tx.vin)
  {
    hide Mints;
    var txs := before + [tx];
    if SpentBy(before, o) {
      var k :| 0 <= k < |before| && !Mints(before[k]) && o in before[k].vin;
      assert txs[k] == before[k];
    }
    if !Mints(tx) && o in tx.vin { assert txs[|before|] == tx; }
  }

  lemma MakerSnoc(u: Utxo, before: seq<Tx>, tx: Tx, height: int, o: OutPoint)
    ensures MakerOf(u, before + [tx], height, o) ==
            if tx.id != o.hash then MakerOf(u, before, height, o)
            else if o.n < |tx.vout| && !Burned(tx.vout[o.n]) then Some(Made(tx.vout[o.n], Mints(tx), height, tx.version)) else None
  {
    hide Mints, Burned;
    assert (before + [tx])[..|before|] == before;
  }

  /** What one transaction changes about an outpoint. */
  lemma ConnectTxOutput(u: Utxo, tx: Tx, height: int, o: OutPoint)
    requires AllWellFormed(u) && CheckTransaction(tx) && InputsPresent(u, tx) && tx.id !in u
    ensures var w := ConnectTx(u, tx, height).0;
            if o.hash == tx.id then
              && (HasOutput(w, o) <==> o.n < |tx.vout| && !Burned(tx.vout[o.n]))
              && (HasOutput(w, o) ==> RecordOf(w, o) == Made(tx.vout[o.n], Mints(tx), height, tx.version))
            else
              && (HasOutput(w, o) <==> HasOutput(u, o) && (Mints(tx) || o !in tx.vin))
              && (HasOutput(w, o) ==> RecordOf(w, o) == RecordOf(u, o))
  {
    MintsIs(tx);
    var w := ConnectTx(u, tx, height).0;
    if o.hash == tx.id {
      CreatedIs(w, tx, height, o);
    } else if !tx.IsCoinBase() {
      CheckedPlain(tx);
      SpendAllRemoves(u, tx.vin);
      var spent := SpendAll(u, tx.vin).0;
      hide SpendAll, CoinsOf;
      if HasOutput(u, o) && o !in tx.vin { SpendAllKeepsRecord(u, tx.vin, o); }
    }
  }

  /** After some accepted transactions the view holds exactly the outputs made and not spent, as they were made. */
  lemma {:induction false} ViewIsHistory(rules: Rules, u: Utxo, txs: seq<Tx>, height: int, o: OutPoint)
    requires Connectable(rules, u, txs, height)
    ensures Agrees(u, txs, height, ConnectTxs(u, txs, height).0, o)
  {
    if txs == [] {
      NothingMade(u, height, o);
    } else {
      hide *;
      var k := |txs| - 1;
      var before, tx := txs[..k], txs[k];
      assert txs == before + [tx];
      PrefixConnectable(rules, u, txs, height, k + 1);
      BeforeTx(rules, u, txs, height, k + 1);
      assert txs[..k + 1] == txs;
      ViewIsHistory(rules, u, before, height, o);
      var w := ConnectTxs(u, before, height).0;
      CheckedInputsPresent(rules, w, tx, height);
      ConnectTxOutput(w, tx, height, o);
      MakerSnoc(u, before, tx, height, o);
      SpentSnoc(before, tx, o);
      if o.hash == tx.id { NotSpentYet(rules, u, txs, height, o); }
      AgreesNext(u, txs, height, w, ConnectTx(w, tx, height).0, o);
    }
  }

  lemma NothingMade(u: Utxo, height: int, o: OutPoint)
    ensures Agrees(u, [], height, u, o) && ConnectTxs(u, [], height).0 == u
  {}

  lemma AgreesNext(u: Utxo, txs: seq<Tx>, height: int, w: Utxo, w': Utxo, o: OutPoint)
    requires txs != [] && Agrees(u, txs[..|txs| - 1], height, w, o)
    requires var before, tx := txs[..|txs| - 1], txs[|txs| - 1];
             && MakerOf(u, txs, height, o) ==
                  (if tx.id != o.hash then MakerOf(u, before, height, o)
                   else if o.n < |tx.vout| && !Burned(tx.vout[o.n]) then Some(Made(tx.vout[o.n], Mints(tx), height, tx.version)) else None)
             && (SpentBy(txs, o) <==> SpentBy(before, o) || (!Mints(tx) && o in tx.vin))
             && (o.hash == tx.id ==> !SpentBy(txs, o))
             && if o.hash == tx.id then
                  && (HasOutput(w', o) <==> o.n < |tx.vout| && !Burned(tx.vout[o.n]))
                  && (HasOutput(w', o) ==> RecordOf(w', o) == Made(tx.vout[o.n], Mints(tx), height, tx.version))
                else
                  && (HasOutput(w', o) <==> HasOutput(w, o) && (Mints(tx) || o !in tx.vin))
                  && (HasOutput(w', o) ==> RecordOf(w', o) == RecordOf(w, o))
    ensures Agrees(u, txs, height, w', o)
  {
    hide MakerOf, SpentBy, HasOutput, RecordOf, Mints, Burned;
  }

  // ---- acceptance ----

  lemma {:induction false} SpendingIs(u: Utxo, before: seq<Tx>, height: int, w: Utxo, vin: seq<OutPoint>, n: nat)
    requires n <= |vin| && (forall i | 0 <= i < |vin| :: HasOutput(w, vin[i])) && forall i | 0 <= i < |vin| :: Agrees(u, before, height, w, vin[i])
    ensures Spending(u, before, height, vin, n) == ValueIn(w, vin[..n])
  {
    hide MakerOf, SpentBy, HasOutput;
    if n > 0 {
      SpendingIs(u, before, height, w, vin, n - 1);
      assert vin[..n][..n - 1] == vin[..n - 1] && vin[..n][n - 1] == vin[n - 1];
      assert HasOutput(w, vin[n - 1]) && Agrees(u, before, height, w, vin[n - 1]);
    }
  }

  lemma InputIs(rules: Rules, u: Utxo, before: seq<Tx>, tx: Tx, height: int, w: Utxo, i: nat)
    requires !tx.IsCoinBase() && InputsPresent(w, tx) && i < |tx.vin|
    requires forall j | 0 <= j < |tx.vin| :: Agrees(u, before, height, w, tx.vin[j])
    ensures InputOk(rules, w, tx, height, i) <==> LawfulInput(rules, u, before, tx, height, i)
  {
    hide MakerOf, SpentBy;
    SpendingIs(u, before, height, w, tx.vin, i + 1);
    hide ValueIn, Spending;
    assert HasOutput(w, tx.vin[i]) && Agrees(u, before, height, w, tx.vin[i]);
  }

  lemma SpendsAre(rules: Rules, u: Utxo, before: seq<Tx>, tx: Tx, height: int, w: Utxo)
    requires forall j | 0 <= j < |tx.vin| :: Agrees(u, before, height, w, tx.vin[j])
    ensures CheckInputs(rules, w, tx, height) <==> LawfulSpends(rules, u, before, tx, height)
    ensures CheckInputs(rules, w, tx, height) && !Mints(tx) ==>
              InputsPresent(w, tx) && Fee(w, tx) == Spending(u, before, height, tx.vin, |tx.vin|) - Total(tx.vout)
  {
    MintsIs(tx);
    TotalIs(tx.vout);
    hide MakerOf, SpentBy, ValueIn, Spending, InputOk, Total, ValueOut, Mints, RecordOf;
    if !tx.IsCoinBase() {
      if LawfulSpends(rules, u, before, tx, height) {
        forall i | 0 <= i < |tx.vin| ensures HasOutput(w, tx.vin[i])
        {
          assert LawfulInput(rules, u, before, tx, height, i) && Agrees(u, before, height, w, tx.vin[i]);
        }
      }
      if InputsPresent(w, tx) {
        hide LawfulInput, Agrees, HasOutput;
        SpendingIs(u, before, height, w, tx.vin, |tx.vin|);
        assert tx.vin[..|tx.vin|] == tx.vin;
        forall i | 0 <= i < |tx.vin| ensures InputOk(rules, w, tx, height, i) <==> LawfulInput(rules, u, before, tx, height, i)
        {
          InputIs(rules, u, before, tx, height, w, i);
        }
      }
    }
  }

  /** What is asked of a block's transactions besides their inputs. */
  ghost predicate Separate(u: Utxo, txs: seq<Tx>)
  {
    && AllWellFormed(u) && (forall i | 0 <= i < |txs| :: CheckTransaction(txs[i]))
    && (forall i, j | 0 <= i < j < |txs| :: txs[i].id != txs[j].id) && NoOverwrite(u, txs)
  }

  lemma SeparateParts(rules: Rules, u: Utxo, txs: seq<Tx>, height: int)
    requires Separate(u, txs)
    ensures TxsOk(rules, u, txs, height) ==> Connectable(rules, u, txs, height)
    ensures txs != [] ==> Separate(u, txs[..|txs| - 1])
  {
    hide CheckTransaction, TxsOk, AllWellFormed;
  }

  /** All transactions pass the checks on the running view exactly when all their inputs are lawful. */
  lemma {:induction false} ChecksAreLaws(rules: Rules, u: Utxo, txs: seq<Tx>, height: int)
    requires Separate(u, txs)
    ensures TxsOk(rules, u, txs, height) <==> forall k | 0 <= k < |txs| :: LawfulSpends(rules, u, txs[..k], txs[k], height)
    ensures TxsOk(rules, u, txs, height) ==> Fees(rules, u, txs, height) == Tips(u, txs, height, |txs|)
    decreases |txs|
  {
    hide CheckInputs, LawfulSpends, Separate, ConnectTxs, Spending, Fee, Agrees, Mints, Total;
    SeparateParts(rules, u, txs, height);
    if txs != [] {
      var n := |txs| - 1;
      var before, tx := txs[..n], txs[n];
      ChecksAreLaws(rules, u, before, height);
      TipsPrefix(u, txs, height, n);
      assert forall k | 0 <= k < n :: before[..k] == txs[..k] && before[k] == txs[k];
      if TxsOk(rules, u, before, height) {
        SeparateParts(rules, u, before, height);
        var w := ConnectTxs(u, before, height).0;
        forall j | 0 <= j < |tx.vin| ensures Agrees(u, before, height, w, tx.vin[j])
        {
          ViewIsHistory(rules, u, before, height, tx.vin[j]);
        }
        SpendsAre(rules, u, before, tx, height, w);
        MintsIs(tx);
        CoinbaseFee(w, tx);
      }
    }
  }

  lemma CoinbaseFee(w: Utxo, tx: Tx)
    ensures tx.IsCoinBase() ==> InputsPresent(w, tx) && Fee(w, tx) == 0
  {}

  lemma {:induction false} TipsPrefix(u: Utxo, txs: seq<Tx>, height: int, k: nat)
    requires k < |txs|
    ensures Tips(u, txs[..|txs| - 1], height, k) == Tips(u, txs, height, k)
  {
    hide Spending, Mints, Total;
    if k > 0 {
      TipsPrefix(u, txs, height, k - 1);
      assert txs[..|txs| - 1][..k - 1] == txs[..k - 1] && txs[..|txs| - 1][k - 1] == txs[k - 1];
    }
  }

  lemma BlockIs(block: Block)
    ensures CheckBlock(block) <==>
      && |block.txs| > 0 && (forall k | 0 <= k < |block.txs| :: Mints(block.txs[k]) <==> k == 0)
      && (forall k | 0 <= k < |block.txs| :: LawfulForm(block.txs[k]))
      && (forall j, k | 0 <= j < k < |block.txs| :: block.txs[j].id != block.txs[k].id)
  {
    hide LawfulForm, CheckTransaction, Mints;
    forall k | 0 <= k < |block.txs|
      ensures Mints(block.txs[k]) == block.txs[k].IsCoinBase() && (LawfulForm(block.txs[k]) <==> CheckTransaction(block.txs[k]))
    {
      MintsIs(block.txs[k]);
      FormIs(block.txs[k]);
    }
  }

  /** Main result: a block is accepted on a view exactly when it obeys the rules: every input names an output that the
      view or an earlier transaction of the block made and that is not spent, is mature, and passes its script; values
      stay in range; and the first transaction pays no more than the subsidy and the fees. */
  lemma AcceptsIsLawful(rules: Rules, u: Utxo, block: Block, height: int, genesis: bool)
    requires AllWellFormed(u)
    ensures Accepts(rules, u, block, height, genesis) <==> Lawful(rules, u, block, height, genesis)
  {
    BlockIs(block);
    hide LawfulForm, CheckTransaction, Mints, TxsOk, LawfulSpends, Fees, Tips, Total, ValueOut, AllWellFormed;
    var txs := block.txs;
    if CheckBlock(block) {
      TotalIs(txs[0].vout);
      if NoOverwrite(u, txs) { ChecksAreLaws(rules, u, txs, height); }
    }
  }

  lemma LawfulScript(rules: Rules, u: Utxo, block: Block, height: int, genesis: bool, k: nat, i: nat)
    requires k < |block.txs| && !Mints(block.txs[k]) && i < |block.txs[k].vin|
    ensures var m := MakerOf(u, block.txs[..k], height, block.txs[k].vin[i]);
            Lawful(rules, u, block, height, genesis) ==> m.Some? && rules.scriptOk(block.txs[k], i, m.value.out.script)
  {
    hide MakerOf, LawfulForm, SpentBy, Spending, Tips;
    if Lawful(rules, u, block, height, genesis) {
      assert LawfulSpends(rules, u, block.txs[..k], block.txs[k], height);
      assert LawfulInput(rules, u, block.txs[..k], block.txs[k], height, i);
    }
  }

  /** In particular, one input whose script fails makes the block unacceptable. */
  lemma FailingScriptRefused(rules: Rules, u: Utxo, block: Block, height: int, genesis: bool, k: nat, i: nat)
    requires AllWellFormed(u) && k < |block.txs| && !Mints(block.txs[k]) && i < |block.txs[k].vin|
    requires var m := MakerOf(u, block.txs[..k], height, block.txs[k].vin[i]);
             m.Some? ==> !rules.scriptOk(block.txs[k], i, m.value.out.script)
    ensures !Accepts(rules, u, block, height, genesis)
  {
    hide MakerOf, Accepts, Lawful;
    AcceptsIsLawful(rules, u, block, height, genesis);
    LawfulScript(rules, u, block, height, genesis, k, i);
  }

  /** Main result: after an accepted block the view holds exactly the outputs that were made and not spent, each with
      the value, script, coinbase flag, height and version it was made with. */
  lemma ViewAfterBlock(rules: Rules, u: Utxo, block: Block, height: int, genesis: bool, o: OutPoint)
    requires AllWellFormed(u) && Accepts(rules, u, block, height, genesis)
    ensures Agrees(u, block.txs, height, ConnectTxs(u, block.txs, height).0, o)
  {
    ViewIsHistory(rules, u, block.txs, height, o);
  }

  /** Connecting a block on a view object, by the rules. */
  method ConnectByRules(view: View, rules: Rules, block: Block, height: int, genesis: bool) returns (ok: bool)
    requires AllWellFormed(view.coins)
    modifies view
    ensures ok <==> Lawful(rules, old(view.coins), block, height, genesis)
    ensures ok ==> forall o :: Agrees(old(view.coins), block.txs, height, view.coins, o)
  {
    hide Lawful, Accepts, Agrees, ConnectTxs, AllWellFormed;
    ghost var u := view.coins;
    AcceptsIsLawful(rules, u, block, height, genesis);
    var undos;
    ok, undos := view.ConnectBlock(rules, block, height, genesis);
    if ok {
      forall o ensures Agrees(u, block.txs, height, view.coins, o) { ViewAfterBlock(rules, u, block, height, genesis, o); }
    }
  }
}
