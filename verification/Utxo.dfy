/** Connecting a block to the set of unspent outputs and disconnecting it again
    (`UpdateCoins`, `CheckInputs`, `ConnectBlock`, `DisconnectBlock`). */
module UtxoSet {
  import opened CoinRecords

  type Utxo = map<Txid, Coins>

  const MAX_MONEY: int := 12_000_000_000 * 100_000
  const COINBASE_MATURITY: int := 120
  const NULL_INDEX: nat := 0xFFFF_FFFF

  datatype OutPoint = OutPoint(hash: Txid, n: nat) {
    predicate IsNull() { hash == 0 && n == NULL_INDEX }
  }

  /** A transaction with its hash; signatures only matter to `Rules.scriptOk`. */
  datatype Tx = Tx(id: Txid, version: int, vin: seq<OutPoint>, vout: seq<TxOut>) {
    predicate IsCoinBase() { 0 < |vin| <= 25 && forall i | 0 <= i < |vin| :: vin[i].IsNull() }
  }

  datatype Block = Block(txs: seq<Tx>, pok: bool)

  /** The parts of validation that are not modelled: the subsidy curve and script evaluation. */
  datatype Rules = Rules(subsidy: (int, bool) -> nat, scriptOk: (Tx, nat, Script) -> bool)

  predicate MoneyRange(v: int) { 0 <= v <= MAX_MONEY }

  function ValueOut(vout: seq<TxOut>): int
  {
    if vout == [] then 0 else ValueOut(vout[..|vout| - 1]) + vout[|vout| - 1].value
  }

  /** No null outpoint and no outpoint twice. */
  predicate PlainInputs(vin: seq<OutPoint>)
  {
    && (forall i | 0 <= i < |vin| :: !vin[i].IsNull())
    && (forall i, j | 0 <= i < j < |vin| :: vin[i] != vin[j])
  }

  predicate CheckTransaction(tx: Tx)
  {
    && tx.vin != [] && tx.vout != []
    && (forall i | 0 <= i < |tx.vout| :: MoneyRange(tx.vout[i].value))
    && (forall k | 0 <= k <= |tx.vout| :: MoneyRange(ValueOut(tx.vout[..k])))
    && (tx.IsCoinBase() || PlainInputs(tx.vin))
  }

  /** The parts of `CheckBlock` that concern transactions. */
  predicate CheckBlock(block: Block)
  {
    && block.txs != [] && block.txs[0].IsCoinBase()
    && (forall i | 1 <= i < |block.txs| :: !block.txs[i].IsCoinBase())
    && (forall i | 0 <= i < |block.txs| :: CheckTransaction(block.txs[i]))
    && (forall i, j | 0 <= i < j < |block.txs| :: block.txs[i].id != block.txs[j].id)
  }

  predicate HasOutput(u: Utxo, out: OutPoint) { out.hash in u && u[out.hash].IsAvailable(out.n) }

  predicate InputsPresent(u: Utxo, tx: Tx)
  {
    tx.IsCoinBase() || forall i | 0 <= i < |tx.vin| :: HasOutput(u, tx.vin[i])
  }

  function OutputFor(u: Utxo, out: OutPoint): TxOut
    requires HasOutput(u, out)
  {
    u[out.hash].vout[out.n]
  }

  function ValueIn(u: Utxo, vin: seq<OutPoint>): int
    requires forall i | 0 <= i < |vin| :: HasOutput(u, vin[i])
  {
    if vin == [] then 0
    else ValueIn(u, vin[..|vin| - 1]) + OutputFor(u, vin[|vin| - 1]).value
  }

  predicate InputOk(rules: Rules, u: Utxo, tx: Tx, height: int, i: nat)
    requires !tx.IsCoinBase() && InputsPresent(u, tx) && i < |tx.vin|
  {
    var coins := u[tx.vin[i].hash];
    var out := OutputFor(u, tx.vin[i]);
    && (coins.coinBase ==> height - coins.height >= COINBASE_MATURITY || out.value == 0)
    && MoneyRange(out.value) && MoneyRange(ValueIn(u, tx.vin[..i + 1]))
    && rules.scriptOk(tx, i, out.script)
  }

  predicate CheckInputs(rules: Rules, u: Utxo, tx: Tx, height: int)
  {
    tx.IsCoinBase() ||
    (&& InputsPresent(u, tx)
     && (forall i | 0 <= i < |tx.vin| :: InputOk(rules, u, tx, height, i))
     && ValueIn(u, tx.vin) >= ValueOut(tx.vout))
  }

  function Fee(u: Utxo, tx: Tx): int
    requires InputsPresent(u, tx)
  {
    if tx.IsCoinBase() then 0 else ValueIn(u, tx.vin) - ValueOut(tx.vout)
  }

  // ---- effect of connecting ----

  /** The record a transaction creates. */
  function CoinsOf(tx: Tx, height: int): Coins { Cleared(Coins(tx.IsCoinBase(), tx.vout, height, tx.version)) }

  function SpendInput(u: Utxo, out: OutPoint): (Utxo, TxInUndo)
  {
    if HasOutput(u, out) then
      var (rest, undo) := SpendOut(u[out.hash], out.n);
      (u[out.hash := rest], undo)
    else (u, TxInUndo(NULL_OUT, false, 0, 0))
  }

  /** Spend the inputs in order. */
  function SpendAll(u: Utxo, vin: seq<OutPoint>): (r: (Utxo, seq<TxInUndo>))
    ensures |r.1| == |vin|
  {
    if vin == [] then (u, [])
    else
      var (u1, undos) := SpendAll(u, vin[..|vin| - 1]);
      var (u2, undo) := SpendInput(u1, vin[|vin| - 1]);
      (u2, undos + [undo])
  }

  function ConnectTx(u: Utxo, tx: Tx, height: int): (Utxo, seq<TxInUndo>)
  {
    var (u1, undo) := if tx.IsCoinBase() then (u, []) else SpendAll(u, tx.vin);
    (u1[tx.id := CoinsOf(tx, height)], undo)
  }

  /** Connect the transactions in order; only non-coinbase ones leave an undo entry. */
  function ConnectTxs(u: Utxo, txs: seq<Tx>, height: int): (Utxo, seq<seq<TxInUndo>>)
  {
    if txs == [] then (u, [])
    else
      var tx := txs[|txs| - 1];
      var (u1, undos) := ConnectTxs(u, txs[..|txs| - 1], height);
      var (u2, undo) := ConnectTx(u1, tx, height);
      (u2, if tx.IsCoinBase() then undos else undos + [undo])
  }

  /** Every transaction passes the checks in the state its predecessors leave. */
  predicate TxsOk(rules: Rules, u: Utxo, txs: seq<Tx>, height: int)
  {
    txs == [] ||
    (&& TxsOk(rules, u, txs[..|txs| - 1], height)
     && CheckInputs(rules, ConnectTxs(u, txs[..|txs| - 1], height).0, txs[|txs| - 1], height))
  }

  function Fees(rules: Rules, u: Utxo, txs: seq<Tx>, height: int): int
    requires TxsOk(rules, u, txs, height)
  {
    if txs == [] then 0
    else
      Fees(rules, u, txs[..|txs| - 1], height)
      + Fee(ConnectTxs(u, txs[..|txs| - 1], height).0, txs[|txs| - 1])
  }

  predicate NoOverwrite(u: Utxo, txs: seq<Tx>) { forall i | 0 <= i < |txs| :: txs[i].id !in u }

  /** `ConnectBlock` accepts the block on this view (the genesis block may pay any amount). */
  predicate Accepts(rules: Rules, u: Utxo, block: Block, height: int, genesis: bool)
  {
    && CheckBlock(block) && NoOverwrite(u, block.txs) && TxsOk(rules, u, block.txs, height)
    && (genesis ||
        ValueOut(block.txs[0].vout) <= rules.subsidy(height, block.pok) + Fees(rules, u, block.txs, height))
  }

  // ---- effect of disconnecting ----

  datatype Undone = Undone(coins: Utxo, clean: bool)

  function Lookup(u: Utxo, h: Txid): Coins { if h in u then u[h] else EMPTY_COINS }

  function RestoreInput(s: Undone, out: OutPoint, undo: TxInUndo): Undone
  {
    var (back, clean) := RestoreOut(Lookup(s.coins, out.hash), out.n, undo);
    Undone(s.coins[out.hash := back], s.clean && clean)
  }

  /** Restore the inputs from the last to the first. */
  function RestoreAll(s: Undone, vin: seq<OutPoint>, undos: seq<TxInUndo>): Undone
    requires |vin| == |undos|
    decreases |vin|
  {
    if vin == [] then s
    else
      var k := |vin| - 1;
      RestoreAll(RestoreInput(s, vin[k], undos[k]), vin[..k], undos[..k])
  }

  /** Check that the transaction's outputs are as created, then drop them. */
  function RemoveOutputs(s: Undone, tx: Tx, height: int): Undone
  {
    var mine := CoinsOf(tx, height);
    var found := Cleared(Lookup(s.coins, tx.id));
    var outs := if mine.version < 0 then found.(version := mine.version) else found;
    Undone(if tx.id in s.coins then s.coins[tx.id := EMPTY_COINS] else s.coins, s.clean && Same(outs, mine))
  }

  /** Undo transactions k-1 down to 0; the first is the coinbase, which has no undo entry. */
  function DisconnectTxs(s: Undone, txs: seq<Tx>, undos: seq<seq<TxInUndo>>, height: int, k: nat): Undone
    requires UndoFits(txs, undos) && k <= |txs|
    decreases k
  {
    if k == 0 then s else DisconnectTxs(DisconnectTx(s, txs, undos, height, k - 1), txs, undos, height, k - 1)
  }

  function DisconnectTx(s: Undone, txs: seq<Tx>, undos: seq<seq<TxInUndo>>, height: int, k: nat): Undone
    requires UndoFits(txs, undos) && k < |txs|
  {
    var removed := RemoveOutputs(s, txs[k], height);
    if k == 0 then removed else
      assert EntryFits(txs, undos, k);
      RestoreAll(removed, txs[k].vin, undos[k - 1])
  }

  predicate EntryFits(txs: seq<Tx>, undos: seq<seq<TxInUndo>>, i: nat)
    requires 1 <= i < |txs| == |undos| + 1
  {
    |txs[i].vin| == |undos[i - 1]|
  }

  predicate UndoFits(txs: seq<Tx>, undos: seq<seq<TxInUndo>>)
  {
    |undos| + 1 == |txs| && forall i | 1 <= i < |txs| :: EntryFits(txs, undos, i)
  }

  // ---- the view whose records these operations change in place ----

  class View {
    var coins: Utxo

    constructor (u: Utxo)
      ensures coins == u
    {
      coins := u;
    }

    method HaveInputs(tx: Tx) returns (ok: bool)
      ensures ok == InputsPresent(coins, tx)
    {
      if tx.IsCoinBase() { return true; }
      for i := 0 to |tx.vin|
        invariant forall j | 0 <= j < i :: tx.vin[j].hash in coins
      {
        if tx.vin[i].hash !in coins { return false; }
      }
      for i := 0 to |tx.vin|
        invariant forall j | 0 <= j < i :: HasOutput(coins, tx.vin[j])
      {
        if !coins[tx.vin[i].hash].IsAvailable(tx.vin[i].n) { return false; }
      }
      ok := true;
    }

    method GetValueIn(tx: Tx) returns (v: int)
      requires InputsPresent(coins, tx)
      ensures v == if tx.IsCoinBase() then 0 else ValueIn(coins, tx.vin)
    {
      v := 0;
      if tx.IsCoinBase() { return; }
      for i := 0 to |tx.vin|
        invariant v == ValueIn(coins, tx.vin[..i])
      {
        assert tx.vin[..i + 1][..i] == tx.vin[..i];
        v := v + OutputFor(coins, tx.vin[i]).value;
      }
      assert tx.vin[..|tx.vin|] == tx.vin;
    }

    /** Spends one output through a reference into the view. */
    method SpendRef(out: OutPoint) returns (ok: bool, undo: TxInUndo)
      modifies this
      ensures ok == HasOutput(old(coins), out)
      ensures ok ==> (coins, undo) == SpendInput(old(coins), out)
    {
      if out.hash !in coins { return false, TxInUndo(NULL_OUT, false, 0, 0); }
      var cell := new CoinsRef(coins[out.hash]);
      ok, undo := cell.Spend(out.n);
      coins := coins[out.hash := Coins(cell.coinBase, cell.vout, cell.height, cell.version)];
    }

    /** The source asserts that every spend succeeds; the precondition is that assertion. */
    method SpendInputs(vin: seq<OutPoint>) returns (undo: seq<TxInUndo>)
      requires SpendsSucceed(coins, vin)
      modifies this
      ensures (coins, undo) == SpendAll(old(coins), vin)
    {
      hide SpendInput;
      undo := [];
      for i := 0 to |vin|
        invariant (coins, undo) == SpendAll(old(coins), vin[..i])
      {
        assert vin[..i + 1][..i] == vin[..i];
        var ok, one := SpendRef(vin[i]);
        assert ok;
        undo := undo + [one];
      }
      assert vin[..|vin|] == vin;
    }

    method UpdateCoins(tx: Tx, height: int) returns (undo: seq<TxInUndo>)
      requires tx.IsCoinBase() || SpendsSucceed(coins, tx.vin)
      modifies this
      ensures (coins, undo) == ConnectTx(old(coins), tx, height)
    {
      undo := [];
      if !tx.IsCoinBase() { undo := SpendInputs(tx.vin); }
      var made := new CoinsRef(Coins(tx.IsCoinBase(), tx.vout, height, tx.version));
      made.ClearUnspendable();
      coins := coins[tx.id := Coins(made.coinBase, made.vout, made.height, made.version)];
    }

    /** Checks one transaction and applies it. */
    method ConnectOne(rules: Rules, tx: Tx, height: int) returns (ok: bool, undo: seq<TxInUndo>, fee: int)
      requires AllWellFormed(coins) && CheckTransaction(tx)
      modifies this
      ensures ok == CheckInputs(rules, old(coins), tx, height)
      ensures ok ==> (coins, undo) == ConnectTx(old(coins), tx, height) && fee == Fee(old(coins), tx)
      ensures ok ==> AllWellFormed(coins)
    {
      ok, undo, fee := false, [], 0;
      if !tx.IsCoinBase() {
        var have := HaveInputs(tx);
        if !have { return; }
        var v := GetValueIn(tx);
        fee := v - ValueOut(tx.vout);
        if !CheckInputs(rules, coins, tx, height) { return; }
        SpendingSucceeds(coins, tx.vin);
      }
      ConnectTxWellFormed(coins, tx, height);
      undo := UpdateCoins(tx, height);
      ok := true;
    }

    /** Checks the block transaction by transaction, updating the view as it goes. */
    method ConnectBlock(rules: Rules, block: Block, height: int, genesis: bool)
      returns (ok: bool, undos: seq<seq<TxInUndo>>)
      requires AllWellFormed(coins)
      modifies this
      ensures ok == Accepts(rules, old(coins), block, height, genesis)
      ensures ok ==> (coins, undos) == ConnectTxs(old(coins), block.txs, height)
    {
      hide ConnectTx, ConnectTxs, CheckInputs, CheckTransaction, TxsOk, Fees, Fee, Connected, ValueOut, AllWellFormed;
      undos := [];
      var txs := block.txs;
      if !CheckBlock(block) || !NoOverwrite(coins, txs) { return false, []; }
      var fees := 0;
      NoneConnected(rules, coins, txs, height);
      for i := 0 to |txs|
        invariant AllWellFormed(coins) && Connected(rules, old(coins), txs[..i], height, coins, undos, fees)
      {
        OneConnected(rules, old(coins), txs, height, i, coins, undos, fees);
        var one, undo, fee := ConnectOne(rules, txs[i], height);
        if !one { return false, []; }
        fees := fees + fee;
        if !txs[i].IsCoinBase() { undos := undos + [undo]; }
      }
      assert txs[..|txs|] == txs;
      AllConnected(rules, old(coins), txs, height, coins, undos, fees);
      ok := genesis || ValueOut(txs[0].vout) <= rules.subsidy(height, block.pok) + fees;
    }

    /** Restores one input from its undo entry. */
    method RestoreOne(out: OutPoint, undo: TxInUndo, clean: bool) returns (clean': bool)
      modifies this
      ensures Undone(coins, clean') == RestoreInput(Undone(old(coins), clean), out, undo)
    {
      clean' := clean;
      var c := if out.hash in coins then coins[out.hash] else EMPTY_COINS;
      if undo.height != 0 {
        if !c.IsPruned() { clean' := false; }
        c := Coins(undo.coinBase, [], undo.height, undo.version);
      } else {
        if c.IsPruned() { clean' := false; }
      }
      if c.IsAvailable(out.n) { clean' := false; }
      if |c.vout| < out.n + 1 { c := c.(vout := Resized(c.vout, out.n + 1)); }
      coins := coins[out.hash := c.(vout := c.vout[out.n := undo.out])];
    }

    /** Compares the transaction's outputs with what the view holds, then blanks them. */
    method RemoveTx(tx: Tx, height: int, clean: bool) returns (clean': bool)
      modifies this
      ensures Undone(coins, clean') == RemoveOutputs(Undone(old(coins), clean), tx, height)
    {
      clean' := clean;
      var outs := new CoinsRef(if tx.id in coins then coins[tx.id] else EMPTY_COINS);
      outs.ClearUnspendable();
      var mine := CoinsOf(tx, height);
      if mine.version < 0 { outs.version := mine.version; }
      if !Same(Coins(outs.coinBase, outs.vout, outs.height, outs.version), mine) { clean' := false; }
      if tx.id in coins { coins := coins[tx.id := EMPTY_COINS]; }
    }

    /** One round of the loop below. */
    method DisconnectAt(txs: seq<Tx>, undos: seq<seq<TxInUndo>>, height: int, i: nat, clean: bool)
      returns (ok: bool, clean': bool)
      requires i < |txs| == |undos| + 1
      modifies this
      ensures ok == (i == 0 || EntryFits(txs, undos, i))
      ensures UndoFits(txs, undos) ==>
        ok && Undone(coins, clean') == DisconnectTx(Undone(old(coins), clean), txs, undos, height, i)
    {
      clean' := RemoveTx(txs[i], height, clean);
      if i > 0 {
        if |undos[i - 1]| != |txs[i].vin| { return false, false; }
        clean' := RestoreTx(txs[i], undos[i - 1], clean');
      }
      ok := true;
    }

    /** `ok` is false when the undo data does not fit the block; otherwise the flag reports cleanliness. */
    method DisconnectBlock(block: Block, undos: seq<seq<TxInUndo>>, height: int) returns (ok: bool, clean: bool)
      requires block.txs != []
      modifies this
      ensures ok == UndoFits(block.txs, undos)
      ensures ok ==>
        Undone(coins, clean) == DisconnectTxs(Undone(old(coins), true), block.txs, undos, height, |block.txs|)
    {
      hide DisconnectTx;
      clean := true;
      var txs := block.txs;
      if |undos| + 1 != |txs| { return false, false; }
      ghost var fits := UndoFits(txs, undos);
      ghost var goal := if fits then DisconnectTxs(Undone(coins, true), txs, undos, height, |txs|) else Undone(coins, true);
      var i := |txs|;
      while i > 0
        invariant 0 <= i <= |txs|
        invariant forall j | 1 <= j < |txs| && i <= j :: EntryFits(txs, undos, j)
        invariant fits ==> DisconnectTxs(Undone(coins, clean), txs, undos, height, i) == goal
      {
        i := i - 1;
        ghost var s := Undone(coins, clean);
        assert fits ==> DisconnectTxs(DisconnectTx(s, txs, undos, height, i), txs, undos, height, i) == goal;
        ok, clean := DisconnectAt(txs, undos, height, i, clean);
        if !ok { return; }
      }
      ok := true;
    }

    method RestoreTx(tx: Tx, undos: seq<TxInUndo>, clean: bool) returns (clean': bool)
      requires |undos| == |tx.vin|
      modifies this
      ensures Undone(coins, clean') == RestoreAll(Undone(old(coins), clean), tx.vin, undos)
    {
      hide RestoreAll, RestoreInput;
      clean' := clean;
      var j: nat := |tx.vin|;
      assert tx.vin[..j] == tx.vin && undos[..j] == undos;
      while j > 0
        invariant j <= |tx.vin|
        invariant RestoreAll(Undone(coins, clean'), tx.vin[..j], undos[..j])
                  == RestoreAll(Undone(old(coins), clean), tx.vin, undos)
      {
        RestoreLast(Undone(coins, clean'), tx.vin, undos, j - 1);
        j := j - 1;
        clean' := RestoreOne(tx.vin[j], undos[j], clean');
      }
      NothingToRestore(Undone(coins, clean'), tx.vin, undos);
    }
  }

  lemma RestoreLast(s: Undone, vin: seq<OutPoint>, undos: seq<TxInUndo>, j: nat)
    requires j < |vin| == |undos|
    ensures RestoreAll(s, vin[..j + 1], undos[..j + 1]) == RestoreAll(RestoreInput(s, vin[j], undos[j]), vin[..j], undos[..j])
  {
    hide RestoreInput;
    assert vin[..j + 1][..j] == vin[..j] && undos[..j + 1][..j] == undos[..j];
  }

  lemma NothingToRestore(s: Undone, vin: seq<OutPoint>, undos: seq<TxInUndo>)
    requires |vin| == |undos|
    ensures RestoreAll(s, vin[..0], undos[..0]) == s
  {}

  /** Each input is available when its turn comes. */
  predicate SpendsSucceed(u: Utxo, vin: seq<OutPoint>)
  {
    forall i | 0 <= i < |vin| :: HasOutput(SpendAll(u, vin[..i]).0, vin[i])
  }

  predicate AllWellFormed(u: Utxo) { forall h | h in u :: u[h].WellFormed() }

  /** Checks on a list of transactions are checks on each prefix. */
  lemma PrefixOk(rules: Rules, u: Utxo, txs: seq<Tx>, height: int, k: nat)
    requires k <= |txs| && TxsOk(rules, u, txs, height)
    ensures TxsOk(rules, u, txs[..k], height)
  {
    if k == |txs| {
      assert txs[..k] == txs;
    } else {
      PrefixOk(rules, u, txs[..|txs| - 1], height, k);
      assert txs[..|txs| - 1][..k] == txs[..k];
    }
  }

  /** These transactions passed the checks, with this view, these undo entries and these fees as the outcome. */
  ghost predicate Connected(rules: Rules, u: Utxo, txs: seq<Tx>, height: int, coins: Utxo, undos: seq<seq<TxInUndo>>, fees: int)
  {
    TxsOk(rules, u, txs, height) && (coins, undos) == ConnectTxs(u, txs, height) && fees == Fees(rules, u, txs, height)
  }

  lemma NoneConnected(rules: Rules, u: Utxo, txs: seq<Tx>, height: int)
    ensures Connected(rules, u, txs[..0], height, u, [], 0)
  {}

  /** Connecting the next transaction, or refusing it and with it the whole list. */
  lemma OneConnected(rules: Rules, u: Utxo, txs: seq<Tx>, height: int, i: nat, coins: Utxo, undos: seq<seq<TxInUndo>>, fees: int)
    requires i < |txs| && Connected(rules, u, txs[..i], height, coins, undos, fees)
    ensures if CheckInputs(rules, coins, txs[i], height) then
              var next := ConnectTx(coins, txs[i], height);
              Connected(rules, u, txs[..i + 1], height, next.0, if txs[i].IsCoinBase() then undos else undos + [next.1],
                        fees + Fee(coins, txs[i]))
            else !TxsOk(rules, u, txs, height)
  {
    hide TxsOk, ConnectTxs, ConnectTx, Fees, Fee, CheckInputs;
    var before := txs[..i];
    assert txs[..i + 1] == before + [txs[i]];
    NextChecked(rules, u, before, txs[i], height);
    if CheckInputs(rules, coins, txs[i], height) {
      NextConnected(rules, u, before, txs[i], height);
    } else if TxsOk(rules, u, txs, height) {
      PrefixOk(rules, u, txs, height, i + 1);
    }
  }

  lemma NextChecked(rules: Rules, u: Utxo, before: seq<Tx>, tx: Tx, height: int)
    ensures TxsOk(rules, u, before + [tx], height) <==>
            TxsOk(rules, u, before, height) && CheckInputs(rules, ConnectTxs(u, before, height).0, tx, height)
  {
    hide CheckInputs, ConnectTxs;
    assert (before + [tx])[..|before|] == before;
  }

  lemma NextConnected(rules: Rules, u: Utxo, before: seq<Tx>, tx: Tx, height: int)
    requires TxsOk(rules, u, before, height) && CheckInputs(rules, ConnectTxs(u, before, height).0, tx, height)
    ensures var (coins, undos) := ConnectTxs(u, before, height);
            var next := ConnectTx(coins, tx, height);
            ConnectTxs(u, before + [tx], height) == (next.0, if tx.IsCoinBase() then undos else undos + [next.1])
    ensures TxsOk(rules, u, before + [tx], height)
    ensures Fees(rules, u, before + [tx], height) == Fees(rules, u, before, height) + Fee(ConnectTxs(u, before, height).0, tx)
  {
    hide ConnectTx, Fee;
    assert (before + [tx])[..|before|] == before;
  }

  lemma AllConnected(rules: Rules, u: Utxo, txs: seq<Tx>, height: int, coins: Utxo, undos: seq<seq<TxInUndo>>, fees: int)
    requires Connected(rules, u, txs, height, coins, undos, fees)
    ensures TxsOk(rules, u, txs, height) && (coins, undos) == ConnectTxs(u, txs, height) && fees == Fees(rules, u, txs, height)
  {}

  /** Spending one present output removes exactly that output. */
  lemma SpendInputRemoves(u: Utxo, out: OutPoint)
    requires AllWellFormed(u) && HasOutput(u, out)
    ensures AllWellFormed(SpendInput(u, out).0) && SpendInput(u, out).0.Keys == u.Keys
    ensures forall o :: HasOutput(SpendInput(u, out).0, o) <==> HasOutput(u, o) && o != out
  {
    forall o
      ensures HasOutput(SpendInput(u, out).0, o) <==> HasOutput(u, o) && o != out
    {
      SpendRemovesOne(u[out.hash], out.n, o.n);
    }
    SpendRemovesOne(u[out.hash], out.n, 0);
  }

  /** Spending present, pairwise different inputs one after the other removes exactly them. */
  lemma {:induction false} SpendAllRemoves(u: Utxo, vin: seq<OutPoint>)
    requires AllWellFormed(u) && forall i | 0 <= i < |vin| :: HasOutput(u, vin[i])
    requires forall i, j | 0 <= i < j < |vin| :: vin[i] != vin[j]
    ensures AllWellFormed(SpendAll(u, vin).0) && SpendAll(u, vin).0.Keys == u.Keys
    ensures forall o :: HasOutput(SpendAll(u, vin).0, o) <==> HasOutput(u, o) && o !in vin
  {
    hide SpendInput, HasOutput;
    if vin != [] {
      var init, last := vin[..|vin| - 1], vin[|vin| - 1];
      SpendAllRemoves(u, init);
      assert vin == init + [last];
      assert HasOutput(u, vin[|vin| - 1]);
      SpendInputRemoves(SpendAll(u, init).0, last);
    }
  }

  /** The source's assertion that spending a checked input cannot fail. */
  lemma SpendingSucceeds(u: Utxo, vin: seq<OutPoint>)
    requires AllWellFormed(u) && forall i | 0 <= i < |vin| :: HasOutput(u, vin[i])
    requires forall i, j | 0 <= i < j < |vin| :: vin[i] != vin[j]
    ensures SpendsSucceed(u, vin)
  {
    forall i | 0 <= i < |vin|
      ensures HasOutput(SpendAll(u, vin[..i]).0, vin[i])
    {
      SpendAllRemoves(u, vin[..i]);
    }
  }

  lemma CreatedWellFormed(tx: Tx, height: int)
    requires forall i | 0 <= i < |tx.vout| :: tx.vout[i].value >= 0
    ensures CoinsOf(tx, height).WellFormed()
  {
    TrimKeepsOutputs(DropUnspendable(tx.vout), 0);
  }

  lemma ConnectTxWellFormed(u: Utxo, tx: Tx, height: int)
    requires AllWellFormed(u) && CheckTransaction(tx) && InputsPresent(u, tx)
    ensures AllWellFormed(ConnectTx(u, tx, height).0)
    ensures ConnectTx(u, tx, height).0.Keys == u.Keys + {tx.id}
  {
    CreatedWellFormed(tx, height);
    if !tx.IsCoinBase() { SpendAllRemoves(u, tx.vin); }
  }
}
