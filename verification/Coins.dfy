/** Unspent-output records (`CCoins`): trimming, spending one output and putting it back.
    The record itself is a value, because the views store it by value in a map; the class
    `CoinsRef` is the reference a view hands out, whose methods change the record in place. */
module CoinRecords {
  import opened Basics

  type Script = seq<Byte>
  type Txid = nat

  const OP_RETURN: Byte := 0x6a

  datatype TxOut = TxOut(value: int, script: Script) {
    predicate IsNull() { value == -1 }
    predicate IsUnspendable() { |script| > 0 && script[0] == OP_RETURN }
  }

  const NULL_OUT: TxOut := TxOut(-1, [])

  datatype Coins = Coins(coinBase: bool, vout: seq<TxOut>, height: int, version: int) {
    predicate IsAvailable(n: nat) { n < |vout| && !vout[n].IsNull() }
    predicate IsPruned() { forall i | 0 <= i < |vout| :: vout[i].IsNull() }

    /** What every record in a view satisfies: nothing spent at the end, spent outputs blank. */
    predicate WellFormed() { Trimmed(vout) && Blanked(vout) }
  }

  const EMPTY_COINS: Coins := Coins(false, [], 0, 0)

  /** `CTxInUndo`: the output, and the record's metadata if it was the last one. */
  datatype TxInUndo = TxInUndo(out: TxOut, coinBase: bool, height: int, version: int)

  predicate Trimmed(vout: seq<TxOut>) { |vout| > 0 ==> !vout[|vout| - 1].IsNull() }

  predicate Blanked(vout: seq<TxOut>) { forall i | 0 <= i < |vout| :: vout[i].IsNull() ==> vout[i] == NULL_OUT }

  /** operator== of `CCoins`: all fully spent records are alike. */
  predicate Same(a: Coins, b: Coins) { (a.IsPruned() && b.IsPruned()) || a == b }

  function Trim(vout: seq<TxOut>): (r: seq<TxOut>)
    ensures r <= vout && Trimmed(r)
    ensures forall i | |r| <= i < |vout| :: vout[i].IsNull()
  {
    if |vout| > 0 && vout[|vout| - 1].IsNull() then Trim(vout[..|vout| - 1]) else vout
  }

  /** Blank every provably unspendable output. */
  function DropUnspendable(vout: seq<TxOut>): (r: seq<TxOut>)
    ensures |r| == |vout|
    ensures forall i | 0 <= i < |vout| :: r[i] == if vout[i].IsUnspendable() then NULL_OUT else vout[i]
  {
    seq(|vout|, i requires 0 <= i < |vout| => if vout[i].IsUnspendable() then NULL_OUT else vout[i])
  }

  function Cleared(c: Coins): Coins { c.(vout := Trim(DropUnspendable(c.vout))) }

  /** Spend output `n`: the remaining record and the undo entry. */
  function SpendOut(c: Coins, n: nat): (Coins, TxInUndo)
    requires c.IsAvailable(n)
  {
    var rest := Trim(c.vout[n := NULL_OUT]);
    (c.(vout := rest),
     if rest == [] then TxInUndo(c.vout[n], c.coinBase, c.height, c.version)
     else TxInUndo(c.vout[n], false, 0, 0))
  }

  function Resized(vout: seq<TxOut>, size: nat): (r: seq<TxOut>)
    ensures |r| == if |vout| < size then size else |vout|
    ensures forall i | 0 <= i < |r| :: r[i] == if i < |vout| then vout[i] else NULL_OUT
  {
    if |vout| < size then vout + seq(size - |vout|, _ => NULL_OUT) else vout
  }

  /** Put output `n` back into the record found in the view; the flag says whether nothing looked wrong. */
  function RestoreOut(c: Coins, n: nat, undo: TxInUndo): (Coins, bool)
  {
    var base := if undo.height != 0 then Coins(undo.coinBase, [], undo.height, undo.version) else c;
    var clean := (if undo.height != 0 then c.IsPruned() else !c.IsPruned()) && !base.IsAvailable(n);
    (base.(vout := Resized(base.vout, n + 1)[n := undo.out]), clean)
  }

  /** Trimming changes no availability and keeps blanks blank. */
  lemma TrimKeepsOutputs(vout: seq<TxOut>, n: nat)
    ensures var r := Trim(vout); (n < |r| && !r[n].IsNull()) <==> (n < |vout| && !vout[n].IsNull())
    ensures Blanked(vout) ==> Blanked(Trim(vout))
  {}

  /** Spending one output of a well-formed record removes exactly that output. */
  lemma SpendRemovesOne(c: Coins, n: nat, m: nat)
    requires c.WellFormed() && c.IsAvailable(n)
    ensures SpendOut(c, n).0.WellFormed()
    ensures SpendOut(c, n).0.IsAvailable(m) <==> c.IsAvailable(m) && m != n
  {
    TrimKeepsOutputs(c.vout[n := NULL_OUT], m);
  }

  /** Restoring inverts spending exactly when the emptied record, if any, was not created at height 0. */
  lemma RestoreInvertsSpend(c: Coins, n: nat)
    requires c.WellFormed() && c.IsAvailable(n)
    ensures var (rest, undo) := SpendOut(c, n);
            var (back, clean) := RestoreOut(rest, n, undo);
            && (clean <==> !(rest.vout == [] && c.height == 0))
            && (clean ==> back == c)
  {
    var (rest, undo) := SpendOut(c, n);
    SpendRemovesOne(c, n, n);
    if rest.vout != [] {
      assert !rest.IsPruned() by { assert !rest.vout[|rest.vout| - 1].IsNull(); }
    }
    if !(rest.vout == [] && c.height == 0) {
      var blank := c.vout[n := NULL_OUT];
      assert |rest.vout| == |c.vout| || |c.vout| == n + 1 by {
        if n + 1 < |c.vout| { assert !blank[|blank| - 1].IsNull(); }
      }
      assert RestoreOut(rest, n, undo).0.vout == c.vout by {
        var base := if undo.height != 0 then [] else rest.vout;
        assert forall i | 0 <= i < |c.vout| && i != n :: i < |rest.vout| || c.vout[i] == NULL_OUT;
      }
    }
  }

  /** A reference to a record, as handed out by a view: the methods work in place. */
  class CoinsRef {
    var coinBase: bool
    var vout: seq<TxOut>
    var height: int
    var version: int

    ghost function Value(): Coins reads this { Coins(coinBase, vout, height, version) }

    constructor (c: Coins)
      ensures Value() == c
    {
      coinBase, vout, height, version := c.coinBase, c.vout, c.height, c.version;
    }

    method Cleanup()
      modifies this`vout
      ensures vout == Trim(old(vout))
    {
      while |vout| > 0 && vout[|vout| - 1].IsNull()
        invariant Trim(vout) == Trim(old(vout))
        decreases |vout|
      {
        vout := vout[..|vout| - 1];
      }
    }

    method ClearUnspendable()
      modifies this`vout
      ensures Value() == Cleared(old(Value()))
    {
      for i := 0 to |vout|
        invariant |vout| == |old(vout)|
        invariant forall k | 0 <= k < |vout| ::
          vout[k] == if k < i && old(vout)[k].IsUnspendable() then NULL_OUT else old(vout)[k]
      {
        if vout[i].IsUnspendable() { vout := vout[i := NULL_OUT]; }
      }
      assert vout == DropUnspendable(old(vout));
      Cleanup();
    }

    method Spend(n: nat) returns (ok: bool, undo: TxInUndo)
      modifies this`vout
      ensures ok == old(Value()).IsAvailable(n)
      ensures ok ==> (Value(), undo) == SpendOut(old(Value()), n)
      ensures !ok ==> Value() == old(Value())
    {
      undo := TxInUndo(NULL_OUT, false, 0, 0);
      if n >= |vout| { return false, undo; }
      if vout[n].IsNull() { return false, undo; }
      undo := TxInUndo(vout[n], false, 0, 0);
      vout := vout[n := NULL_OUT];
      Cleanup();
      if |vout| == 0 {
        undo := undo.(height := height, coinBase := coinBase, version := version);
      }
      ok := true;
    }
  }
}
