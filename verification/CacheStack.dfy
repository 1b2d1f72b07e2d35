/** Write-back caches of unspent outputs stacked over a database (`CCoinsViewCache`): every layer reads like
    a plain map, whatever has been cached, written, spent or flushed. */
module CacheStack {
  import opened CoinRecords
  import opened UtxoSet
  import opened UtxoUndo
  import opened Reorg

  type Hash = nat

  /** A best-block hash (0: not known here) and the records held at this level. */
  datatype Layer = Layer(hash: Hash, coins: Utxo)

  const EMPTY_LAYER: Layer := Layer(0, map[])

  // ---- what a stack of layers stands for; layer 0 is the database ----

  function Flat(layers: seq<Layer>, i: nat): Utxo
    requires i < |layers|
  {
    if i == 0 then layers[0].coins else Flat(layers, i - 1) + layers[i].coins
  }

  function Best(layers: seq<Layer>, i: nat): Hash
    requires i < |layers|
  {
    if i == 0 || layers[i].hash != 0 then layers[i].hash else Best(layers, i - 1)
  }

  /** Both stacks read alike at every level. */
  ghost predicate ReadAlike(a: seq<Layer>, b: seq<Layer>)
  {
    |a| == |b| && forall i | 0 <= i < |a| :: Flat(a, i) == Flat(b, i)
  }

  lemma {:induction false} FlatBelow(a: seq<Layer>, b: seq<Layer>, i: nat)
    requires i < |a| && i < |b| && a[..i + 1] == b[..i + 1]
    ensures Flat(a, i) == Flat(b, i) && Best(a, i) == Best(b, i)
  {
    assert a[i] == a[..i + 1][i] == b[i];
    if i > 0 {
      assert a[..i] == a[..i + 1][..i] == b[..i];
      FlatBelow(a, b, i - 1);
    }
  }

  /** If two stacks agree at a level and are the same above it, they agree at every level above. */
  lemma {:induction false} FlatAbove(a: seq<Layer>, b: seq<Layer>, i: nat, j: nat)
    requires |a| == |b| && i <= j < |a| && Flat(a, i) == Flat(b, i)
    requires forall k | i < k <= j :: a[k].coins == b[k].coins
    ensures Flat(a, j) == Flat(b, j)
  {
    if j > i { FlatAbove(a, b, i, j - 1); }
  }

  /** If two stacks answer alike at a level and are the same above it, they answer alike above. */
  lemma {:induction false} BestAboveAt(a: seq<Layer>, b: seq<Layer>, i: nat, j: nat)
    requires |a| == |b| && i <= j < |a| && Best(a, i) == Best(b, i)
    requires forall k | i < k <= j :: a[k].hash == b[k].hash
    ensures Best(a, j) == Best(b, j)
  {
    if j > i { BestAboveAt(a, b, i, j - 1); }
  }

  lemma BestAbove(a: seq<Layer>, b: seq<Layer>, i: nat)
    requires |a| == |b| && i < |a| && Best(a, i) == Best(b, i) && forall k | i < k < |a| :: a[k].hash == b[k].hash
    ensures forall j | i <= j < |a| :: Best(a, j) == Best(b, j)
  {
    hide Best;
    forall j | i <= j < |a| ensures Best(a, j) == Best(b, j) { BestAboveAt(a, b, i, j); }
  }

  lemma SameBelow(a: seq<Layer>, b: seq<Layer>, i: nat)
    requires i <= |a| == |b| && a[..i] == b[..i]
    ensures forall j | 0 <= j < i :: Flat(a, j) == Flat(b, j) && Best(a, j) == Best(b, j)
  {
    hide Flat, Best;
    forall j | 0 <= j < i ensures Flat(a, j) == Flat(b, j) && Best(a, j) == Best(b, j)
    {
      assert a[..j + 1] == a[..i][..j + 1] == b[..i][..j + 1] == b[..j + 1];
      FlatBelow(a, b, j);
    }
  }

  lemma FlatAt(a: seq<Layer>, i: nat)
    requires i < |a|
    ensures i == 0 ==> Flat(a, i) == a[0].coins && Best(a, i) == a[0].hash
    ensures i > 0 ==> Flat(a, i) == Flat(a, i - 1) + a[i].coins
    ensures i > 0 ==> Best(a, i) == if a[i].hash != 0 then a[i].hash else Best(a, i - 1)
  {}

  lemma AddKnown(u: Utxo, m: Utxo, t: Txid)
    requires t in u + m
    ensures u + m[t := (u + m)[t]] == u + m
  {}

  /** Keeping a copy of what is read from below changes no lookup. */
  lemma CachingIsInvisible(a: seq<Layer>, i: nat, t: Txid)
    requires i < |a| && t in Flat(a, i)
    ensures ReadAlike(a, a[i := a[i].(coins := a[i].coins[t := Flat(a, i)[t]])])
  {
    hide Flat, Best;
    var b := a[i := a[i].(coins := a[i].coins[t := Flat(a, i)[t]])];
    assert b[..i] == a[..i];
    SameBelow(a, b, i);
    FlatAt(a, i);
    FlatAt(b, i);
    if i > 0 { AddKnown(Flat(a, i - 1), a[i].coins, t); } else { assert b[0].coins == a[0].coins; }
    forall j | 0 <= j < |a| ensures Flat(a, j) == Flat(b, j)
    {
      if j >= i { FlatAbove(a, b, i, j); }
    }
  }

  lemma AddOne(u: Utxo, m: Utxo, t: Txid, c: Coins)
    ensures u + m[t := c] == (u + m)[t := c]
  {}

  /** A cache above level i, up to level j, holds its own copy of the record. */
  predicate Shadowed(a: seq<Layer>, i: nat, j: nat, t: Txid)
    requires j < |a|
  {
    exists k | i < k <= j :: t in a[k].coins
  }

  lemma AddShadowed(u: Utxo, m: Utxo, t: Txid, c: Coins)
    ensures t in m ==> u[t := c] + m == u + m
    ensures t !in m ==> u[t := c] + m == (u + m)[t := c]
  {}

  /** Writing at one level: nothing changes below it, nor above where a cache holds its own copy. */
  lemma {:induction false} WriteAt(a: seq<Layer>, i: nat, t: Txid, c: Coins, j: nat)
    requires i < |a| && j < |a|
    ensures var b := a[i := a[i].(coins := a[i].coins[t := c])];
            Flat(b, j) == if j < i || Shadowed(a, i, j, t) then Flat(a, j) else Put(Flat(a, j), t, c)
    ensures var b := a[i := a[i].(coins := a[i].coins[t := c])]; Shadowed(a, i, j, t) == Shadowed(b, i, j, t)
    decreases j
  {
    hide Flat, Best;
    var b := a[i := a[i].(coins := a[i].coins[t := c])];
    assert forall k | i < k <= j :: a[k] == b[k];
    FlatAt(a, j);
    FlatAt(b, j);
    if j < i {
      assert a[..i] == b[..i];
      SameBelow(a, b, i);
    } else if j == i {
      assert a[..i] == b[..i];
      SameBelow(a, b, i);
      if i > 0 { AddOne(Flat(a, i - 1), a[i].coins, t, c); }
    } else {
      WriteAt(a, i, t, c, j - 1);
      AddShadowed(Flat(a, j - 1), a[j].coins, t, c);
      assert Shadowed(a, i, j, t) == (Shadowed(a, i, j - 1, t) || t in a[j].coins);
    }
  }

  // ---- flushing the top layer ----

  /** What the database holds after a batch: written records, less the fully spent ones written. */
  function Committed(db: Utxo, m: Utxo): Utxo
  {
    map t | t in db.Keys + m.Keys && (t in m ==> !m[t].IsPruned()) :: if t in m then m[t] else db[t]
  }

  /** Cache `n` written to the level below and emptied. */
  function Flushed(a: seq<Layer>, n: nat): (b: seq<Layer>)
    requires 0 < n < |a|
    ensures |b| == |a|
  {
    var top, low := a[n], a[n - 1];
    var low' := if n == 1 then Layer(if top.hash != 0 then top.hash else low.hash, Committed(low.coins, top.coins))
                else Layer(top.hash, low.coins + top.coins);
    a[n - 1 := low'][n := top.(coins := map[])]
  }

  lemma CommittedEquiv(db: Utxo, m: Utxo)
    ensures Equiv(Committed(db, m), db + m)
  {
    forall h: Txid ensures Same(Lookup(Committed(db, m), h), Lookup(db + m, h)) {}
  }

  lemma AddAssoc(u: Utxo, v: Utxo, w: Utxo)
    ensures u + (v + w) == (u + v) + w
  {}

  /** After a flush the level below and the flushed one read as the flushed one did; levels above read as before,
      fully spent records counting as absent; nothing further down changes. */
  lemma FlushAgrees(a: seq<Layer>, n: nat)
    requires 0 < n < |a|
    ensures var b := Flushed(a, n);
            && Equiv(Flat(b, n - 1), Flat(a, n)) && Flat(b, n) == Flat(b, n - 1) && b[n].coins == map[]
            && (forall j | 0 <= j < n - 1 :: Flat(b, j) == Flat(a, j)) && (forall j | n <= j < |a| :: Equiv(Flat(b, j), Flat(a, j)))
  {
    FlushedHashes(a, n);
    hide Flat, Best, Equiv, Committed, Flushed;
    var b := Flushed(a, n);
    SameBelow(a, b, n - 1);
    FlatAt(b, n);
    assert Flat(b, n - 1) + map[] == Flat(b, n - 1);
    if n == 1 { FlushToDisk(a); } else { FlushToCache(a, n); }
    forall j | n <= j < |a| ensures Equiv(Flat(b, j), Flat(a, j)) { EquivAbove(a, b, n, j); }
  }

  /** If two stacks agree at a level up to fully spent records and are the same above it, they agree so above. */
  lemma {:induction false} EquivAbove(a: seq<Layer>, b: seq<Layer>, i: nat, j: nat)
    requires |a| == |b| && i <= j < |a| && Equiv(Flat(b, i), Flat(a, i)) && forall k | i < k < |a| :: a[k] == b[k]
    ensures Equiv(Flat(b, j), Flat(a, j))
  {
    hide Flat, Best, Equiv;
    if j > i {
      EquivAbove(a, b, i, j - 1);
      FlatAt(a, j);
      FlatAt(b, j);
      EquivOver(Flat(b, j - 1), Flat(a, j - 1), a[j].coins);
    }
  }

  lemma EquivOver(u: Utxo, v: Utxo, m: Utxo)
    requires Equiv(u, v)
    ensures Equiv(u + m, v + m)
  {
    forall h: Txid ensures Same(Lookup(u + m, h), Lookup(v + m, h)) { assert Same(Lookup(u, h), Lookup(v, h)); }
  }

  lemma FlushToDisk(a: seq<Layer>)
    requires |a| >= 2
    ensures Equiv(Flat(Flushed(a, 1), 0), Flat(a, 1))
  {
    FlushedCommits(a);
    hide *;
    FlatAt(a, 0);
    FlatAt(a, 1);
    FlatAt(Flushed(a, 1), 0);
    CommittedEquiv(a[0].coins, a[1].coins);
  }

  lemma FlushedCommits(a: seq<Layer>)
    requires |a| >= 2
    ensures Flushed(a, 1)[0].coins == Committed(a[0].coins, a[1].coins)
  {
    hide Committed;
  }

  lemma FlushToCache(a: seq<Layer>, n: nat)
    requires 2 <= n < |a|
    ensures Equiv(Flat(Flushed(a, n), n - 1), Flat(a, n))
  {
    hide Flat, Best, Equiv;
    var b := Flushed(a, n);
    assert a[..n - 1] == b[..n - 1];
    SameBelow(a, b, n - 1);
    FlatAt(a, n - 1);
    FlatAt(a, n);
    FlatAt(b, n - 1);
    AddAssoc(Flat(a, n - 2), a[n - 1].coins, a[n].coins);
    EquivRefl(Flat(a, n));
  }

  /** Over a database without fully spent records, flushing the cache drops exactly the fully spent ones. */
  lemma FlushIsStored(a: seq<Layer>)
    requires |a| >= 2 && Unpruned(a[0].coins)
    ensures Flat(Flushed(a, 1), 1) == Stored(Flat(a, 1)) && Flat(Flushed(a, 1), 0) == Stored(Flat(a, 1))
    ensures Unpruned(Flushed(a, 1)[0].coins)
  {
    hide *;
    var b := Flushed(a, 1);
    FlushedCommits(a);
    FlushedHashes(a, 1);
    FlatAt(a, 0);
    FlatAt(a, 1);
    FlatAt(b, 0);
    FlatAt(b, 1);
    CommittedStored(a[0].coins, a[1].coins);
    assert Flat(b, 0) + map[] == Flat(b, 0);
  }

  lemma CommittedStored(db: Utxo, m: Utxo)
    requires Unpruned(db)
    ensures Committed(db, m) == Stored(db + m) && Unpruned(Committed(db, m))
  {}

  lemma FlushedHashes(a: seq<Layer>, n: nat)
    requires 0 < n < |a|
    ensures var b := Flushed(a, n);
            && a[..n - 1] == b[..n - 1] && b[n].hash == a[n].hash && b[n].coins == map[]
            && b[n - 1].hash == (if n == 1 && a[n].hash == 0 then a[n - 1].hash else a[n].hash)
            && forall k | n < k < |a| :: a[k] == b[k]
  {
    hide Committed;
  }

  /** The best block survives the flush of a cache exactly when the cache knew it, or had it from below anyway. */
  lemma FlushBest(a: seq<Layer>, n: nat)
    requires 0 < n < |a|
    ensures var b := Flushed(a, n);
            Best(b, n - 1) == Best(b, n) &&
            (Best(b, n) == Best(a, n) <==> a[n].hash != 0 || n == 1 || a[n - 1].hash == 0 || a[n - 1].hash == Best(a, n - 2))
  {
    hide Flat, Best, Flushed;
    var b := Flushed(a, n);
    FlushedHashes(a, n);
    SameBelow(a, b, n - 1);
    FlatAt(a, n - 1);
    FlatAt(a, n);
    FlatAt(b, n - 1);
    FlatAt(b, n);
  }

  /** A cache flushed before its best block was read makes the cache below forget its own. */
  lemma FlushForgetsBest()
    ensures var a := [Layer(1, map[]), Layer(2, map[]), Layer(0, map[])];
            Best(a, 2) == 2 && Best(Flushed(a, 2), 2) == 1 && Best(Flushed(a, 2), 1) == 1
  {
    var a := [Layer(1, map[]), Layer(2, map[]), Layer(0, map[])];
    var b := Flushed(a, 2);
    assert Best(a, 1) == 2 && Best(b, 0) == 1;
  }

  lemma SpentAt(u: Utxo, out: OutPoint)
    requires out.hash in u
    ensures HasOutput(u, out) == u[out.hash].IsAvailable(out.n)
    ensures HasOutput(u, out) ==>
              && SpendInput(u, out).0 == Put(u, out.hash, SpendOut(u[out.hash], out.n).0)
              && SpendInput(u, out).1 == SpendOut(u[out.hash], out.n).1
  {
    hide SpendOut;
  }

  /** Above a level, a record that no cache in between holds is the level's own. */
  lemma {:induction false} Unshadowed(a: seq<Layer>, i: nat, j: nat, t: Txid)
    requires i <= j < |a| && t in Flat(a, i) && !Shadowed(a, i, j, t)
    ensures t in Flat(a, j) && Flat(a, j)[t] == Flat(a, i)[t]
  {
    hide Flat, Best;
    if j > i {
      Unshadowed(a, i, j - 1, t);
      FlatAt(a, j);
    }
  }

  lemma SpendAbove(a: seq<Layer>, b: seq<Layer>, i: nat, out: OutPoint, c: Coins, j: nat, p: Utxo)
    requires ReadAlike(a, b) && 0 < i < |a| && j < |a| && (forall k | i < k < |a| :: a[k] == b[k])
    requires HasOutput(Flat(a, i), out) && c == SpendOut(Flat(a, i)[out.hash], out.n).0 && Equiv(Flat(a, j), p)
    ensures var b' := b[i := b[i].(coins := b[i].coins[out.hash := c])];
            Equiv(Flat(b', j), if j < i || Shadowed(a, i, j, out.hash) then p else SpendInput(p, out).0)
  {
    hide Flat, Equiv, SpendOut, SpendInput, Best;
    assert Shadowed(a, i, j, out.hash) == Shadowed(b, i, j, out.hash);
    assert Flat(a, j) == Flat(b, j);
    WriteAt(b, i, out.hash, c, j);
    if !(j < i || Shadowed(a, i, j, out.hash)) {
      Unshadowed(a, i, j, out.hash);
      SpentAt(Flat(a, j), out);
      SpendInputEquiv(Flat(a, j), p, out);
    }
  }

  lemma LookupEquiv(u: Utxo, v: Utxo, t: Txid)
    requires Equiv(u, v)
    ensures Same(Lookup(u, t), Lookup(v, t))
  {}

  lemma HasOutputEquiv(u: Utxo, v: Utxo, out: OutPoint)
    requires Equiv(u, v)
    ensures HasOutput(u, out) == HasOutput(v, out)
  {
    LookupEquiv(u, v, out.hash);
  }

  function Put(u: Utxo, t: Txid, c: Coins): Utxo { u[t := c] }

  // ---- the objects ----

  /** A database with any number of caches over it. `plain` is the specification: one plain map for each
      level, which reads do not touch. */
  class Stack {
    var layers: seq<Layer>
    ghost var plain: seq<Utxo>

    ghost predicate Valid()
      reads this
    {
      |layers| >= 1 && |plain| == |layers| && forall i | 0 <= i < |layers| :: Equiv(Flat(layers, i), plain[i])
    }

    function Top(): nat reads this requires |layers| >= 1 { |layers| - 1 }

    constructor (db: Layer)
      ensures Valid() && layers == [db] && plain == [db.coins]
    {
      layers, plain := [db], [db.coins];
    }

    /** A new cache over the top one. */
    method Push()
      requires Valid()
      modifies this
      ensures Valid() && plain == old(plain) + [old(plain)[old(Top())]] && layers == old(layers) + [EMPTY_LAYER]
    {
      hide Flat, Equiv;
      ghost var a := layers;
      layers := layers + [EMPTY_LAYER];
      plain := plain + [plain[|plain| - 1]];
      PushReads(a);
    }

    /** Dropping the top cache without flushing it forgets its changes. */
    method Pop()
      requires Valid() && |layers| >= 2
      modifies this
      ensures Valid() && plain == old(plain)[..old(Top())] && layers == old(layers)[..old(Top())]
    {
      ghost var a := layers;
      layers := layers[..|layers| - 1];
      plain := plain[..|plain| - 1];
      PopReads(a);
    }

    /** `GetCoins` and `FetchCoins` at any level: every level down to the one that knows keeps a copy. */
    method Fetch(i: nat, t: Txid) returns (found: bool, c: Coins)
      requires i < |layers|
      modifies this`layers
      ensures ReadAlike(old(layers), layers)
      ensures forall j | 0 <= j < |layers| :: layers[j].hash == old(layers)[j].hash
      ensures forall j | i < j < |layers| :: layers[j] == old(layers)[j]
      ensures found == (t in Flat(layers, i)) && (found ==> c == Flat(layers, i)[t] && t in layers[i].coins && layers[i].coins[t] == c)
      ensures forall x | x in old(layers)[i].coins :: x in layers[i].coins
      decreases i
    {
      hide Flat;
      ghost var a := layers;
      FlatAt(a, i);
      AlikeSelf(a);
      if t in layers[i].coins { return true, layers[i].coins[t]; }
      if i == 0 { return false, EMPTY_COINS; }
      found, c := Fetch(i - 1, t);
      ghost var b := layers;
      FlatAt(b, i);
      if found {
        CachingIsInvisible(b, i, t);
        layers := layers[i := layers[i].(coins := layers[i].coins[t := c])];
        AlikeTrans(a, b, layers);
      }
    }

    method HaveCoins(t: Txid) returns (found: bool)
      requires Valid()
      modifies this`layers
      ensures Valid() && ReadAlike(old(layers), layers)
      ensures found == (t in Flat(layers, Top())) && (found ==> t in layers[Top()].coins)
      ensures forall x | x in old(layers)[Top()].coins :: x in layers[Top()].coins
    {
      hide Flat, Equiv;
      ghost var a := layers;
      var c;
      found, c := Fetch(Top(), t);
    }

    /** Writing at any level: levels above see it unless a cache in between holds the record. */
    method SetCoins(i: nat, t: Txid, c: Coins)
      requires Valid() && 0 < i < |layers|
      modifies this
      ensures |layers| == |old(layers)| && Valid()
      ensures forall j | 0 <= j < |layers| && j != i :: layers[j] == old(layers)[j]
      ensures forall j | 0 <= j < |layers| ::
        plain[j] == if j < i || Shadowed(layers, i, j, t) then old(plain)[j] else Put(old(plain)[j], t, c)
    {
      hide Flat, Equiv;
      ghost var a := layers;
      layers := layers[i := layers[i].(coins := layers[i].coins[t := c])];
      ghost var b, p := layers, plain;
      plain := seq(|b|, j requires 0 <= j < |b| => if j < i || Shadowed(b, i, j, t) then p[j] else Put(p[j], t, c));
      forall j | 0 <= j < |b| ensures Equiv(Flat(b, j), plain[j])
      {
        WriteAt(a, i, t, c, j);
        if !(j < i || Shadowed(b, i, j, t)) { UpdateEquiv(Flat(a, j), p[j], t, c); }
      }
    }

    /** Spending through the reference that `GetCoins` returns at any cache level: the level and those above see
        the output spent, unless a cache in between holds the record. */
    method SpendRef(i: nat, out: OutPoint) returns (ok: bool, undo: TxInUndo)
      requires Valid() && 0 < i < |layers| && out.hash in Flat(layers, i)
      modifies this
      ensures Valid() && |layers| == |old(layers)|
      ensures ok == HasOutput(old(plain)[i], out)
      ensures ok ==> undo == SpendInput(old(Flat(layers, i)), out).1
      ensures forall j | 0 <= j < |layers| ::
        plain[j] == if !ok || j < i || Shadowed(old(layers), i, j, out.hash) then old(plain)[j] else SpendInput(old(plain)[j], out).0
    {
      hide Flat, Equiv, SpendOut, SpendInput;
      ghost var a, p := layers, plain;
      HasOutputEquiv(Flat(a, i), p[i], out);
      var found, c := Fetch(i, out.hash);
      ghost var b := layers;
      var cell := new CoinsRef(c);
      ok, undo := cell.Spend(out.n);
      SpentAt(Flat(a, i), out);
      if ok {
        var c' := Coins(cell.coinBase, cell.vout, cell.height, cell.version);
        layers := layers[i := layers[i].(coins := layers[i].coins[out.hash := c'])];
        plain := seq(|a|, j requires 0 <= j < |a| =>
          if j < i || Shadowed(a, i, j, out.hash) then p[j] else SpendInput(p[j], out).0);
        forall j | 0 <= j < |a| ensures Equiv(Flat(layers, j), plain[j]) { SpendAbove(a, b, i, out, c', j, p[j]); }
      }
    }

    /** `BatchWrite` of the level below, then clearing the cache; any cache can be flushed. */
    method Flush(n: nat)
      requires Valid() && 0 < n < |layers|
      modifies this
      ensures Valid() && layers == Flushed(old(layers), n)
      ensures plain == old(plain)[n - 1 := old(plain)[n]]
      ensures layers[n].coins == map[]
    {
      hide Flat, Equiv, Committed;
      ghost var a, p := layers, plain;
      FlushAgrees(a, n);
      var low := layers[n - 1];
      var coins := BatchWrite(low.coins, layers[n].coins, n == 1);
      var hash := if n == 1 && layers[n].hash == 0 then low.hash else layers[n].hash;
      layers := layers[n - 1 := Layer(hash, coins)];
      layers := layers[n := layers[n].(coins := map[])];
      assert layers == Flushed(a, n);
      plain := plain[n - 1 := plain[n]];
      forall j | 0 <= j < |a| ensures Equiv(Flat(layers, j), plain[j])
      {
        if j == n - 1 {
          EquivTrans(Flat(layers, j), Flat(a, n), p[n]);
        } else if j >= n {
          EquivTrans(Flat(layers, j), Flat(a, j), p[j]);
        }
      }
    }

    /** Reads only: presence first, which caches every record, then availability. */
    method HaveInputs(tx: Tx) returns (ok: bool)
      requires Valid()
      modifies this`layers
      ensures Valid() && ReadAlike(old(layers), layers)
      ensures ok == InputsPresent(Flat(layers, Top()), tx)
      ensures ok && !tx.IsCoinBase() ==> InputsCached(layers[Top()], tx)
    {
      hide Flat, Equiv, Stack.Valid, ReadAlike;
      ghost var a := layers;
      AlikeSelf(a);
      Shape();
      if tx.IsCoinBase() { return true; }
      for i := 0 to |tx.vin|
        invariant Valid() && |layers| == |a| >= 1 && ReadAlike(a, layers)
        invariant forall j | 0 <= j < i :: tx.vin[j].hash in layers[Top()].coins
      {
        ghost var b := layers;
        var found := HaveCoins(tx.vin[i].hash);
        AlikeTrans(a, b, layers);
        AlikeTop(b, layers);
        if !found { return false; }
      }
      for i := 0 to |tx.vin|
        invariant Valid() && |layers| == |a| >= 1 && ReadAlike(a, layers)
        invariant forall j | 0 <= j < |tx.vin| :: tx.vin[j].hash in layers[Top()].coins
        invariant forall j | 0 <= j < i :: HasOutput(Flat(layers, Top()), tx.vin[j])
      {
        TopHas(layers, tx.vin[i].hash);
        var c := layers[Top()].coins[tx.vin[i].hash];
        if !c.IsAvailable(tx.vin[i].n) { return false; }
      }
      ok := true;
    }

    method GetValueIn(tx: Tx) returns (v: int)
      requires Valid() && InputsPresent(Flat(layers, Top()), tx)
      modifies this`layers
      ensures Valid() && ReadAlike(old(layers), layers)
      ensures v == if tx.IsCoinBase() then 0 else ValueIn(old(Flat(layers, Top())), tx.vin)
    {
      hide Flat, Equiv, Stack.Valid, ReadAlike;
      ghost var a := layers;
      AlikeSelf(a);
      Shape();
      ghost var u := Flat(a, Top());
      v := 0;
      if tx.IsCoinBase() { return; }
      for i := 0 to |tx.vin|
        invariant Valid() && |layers| == |a| >= 1 && ReadAlike(a, layers) && Flat(layers, Top()) == u
        invariant v == ValueIn(u, tx.vin[..i])
      {
        ghost var b := layers;
        assert HasOutput(u, tx.vin[i]);
        var c := GetCoins(tx.vin[i].hash);
        AlikeTrans(a, b, layers);
        AlikeTop(b, layers);
        assert tx.vin[..i + 1][..i] == tx.vin[..i];
        v := v + c.vout[tx.vin[i].n].value;
      }
      assert tx.vin[..|tx.vin|] == tx.vin;
    }

    /** The reference form of `GetCoins`, which asserts that the record is there. */
    method GetCoins(t: Txid) returns (c: Coins)
      requires Valid() && t in Flat(layers, Top())
      modifies this`layers
      ensures Valid() && ReadAlike(old(layers), layers) && c == old(Flat(layers, Top()))[t]
    {
      hide Flat, Equiv;
      var found;
      found, c := Fetch(Top(), t);
    }

    /** Put the top cache over other layers. */
    method SetBackend(lower: seq<Layer>)
      requires |layers| >= 1 && |lower| >= 1
      modifies this
      ensures Valid() && layers == lower + [old(layers)[old(Top())]]
    {
      hide Flat, Equiv;
      layers := lower + [layers[|layers| - 1]];
      ghost var a := layers;
      plain := seq(|a|, i requires 0 <= i < |a| => Flat(a, i));
      forall i | 0 <= i < |a| ensures Equiv(Flat(a, i), plain[i]) { EquivRefl(Flat(a, i)); }
    }

    lemma Shape()
      requires Valid()
      ensures |layers| >= 1
    {}

    method GetBestBlock(i: nat) returns (h: Hash)
      requires i < |layers|
      modifies this`layers
      ensures |layers| == |old(layers)| && forall j | 0 <= j < |layers| :: layers[j].coins == old(layers)[j].coins
      ensures forall j | i < j < |layers| :: layers[j] == old(layers)[j]
      ensures forall j | 0 <= j < |layers| :: Best(layers, j) == Best(old(layers), j)
      ensures h == Best(layers, i) && layers[i].hash == h
      decreases i
    {
      hide Best, Flat;
      ghost var a := layers;
      FlatAt(layers, i);
      if i == 0 { return layers[0].hash; }
      if layers[i].hash == 0 {
        var below := GetBestBlock(i - 1);
        ghost var b := layers;
        layers := layers[i := layers[i].(hash := below)];
        assert b[..i] == layers[..i];
        SameBelow(b, layers, i);
        FlatAt(layers, i);
        BestAbove(a, layers, i);
      }
      h := layers[i].hash;
    }

    method SetBestBlock(h: Hash)
      requires |layers| >= 2
      modifies this`layers
      ensures var n := old(Top()); layers == old(layers)[n := old(layers)[n].(hash := h)]
    {
      layers := layers[|layers| - 1 := layers[|layers| - 1].(hash := h)];
    }
  }

  lemma PushReads(a: seq<Layer>)
    requires |a| >= 1
    ensures var b := a + [EMPTY_LAYER];
            (forall i | 0 <= i < |a| :: Flat(b, i) == Flat(a, i)) && Flat(b, |a|) == Flat(a, |a| - 1)
  {
    hide Flat, Best;
    var b := a + [EMPTY_LAYER];
    forall i | 0 <= i < |a| ensures Flat(b, i) == Flat(a, i)
    {
      assert a[..i + 1] == b[..i + 1];
      FlatBelow(a, b, i);
    }
    FlatAt(b, |a|);
    assert Flat(a, |a| - 1) + map[] == Flat(a, |a| - 1);
  }

  lemma PopReads(a: seq<Layer>)
    requires |a| >= 2
    ensures var b := a[..|a| - 1]; forall i | 0 <= i < |b| :: Flat(b, i) == Flat(a, i)
  {
    hide Flat, Best;
    var b := a[..|a| - 1];
    forall i | 0 <= i < |b| ensures Flat(b, i) == Flat(a, i)
    {
      assert a[..i + 1] == b[..i + 1];
      FlatBelow(a, b, i);
    }
  }

  lemma AlikeSelf(a: seq<Layer>)
    ensures ReadAlike(a, a)
  {}

  lemma AlikeTop(a: seq<Layer>, b: seq<Layer>)
    requires ReadAlike(a, b) && |a| >= 1
    ensures |a| == |b| && Flat(a, |a| - 1) == Flat(b, |b| - 1)
  {}

  lemma TopHas(a: seq<Layer>, t: Txid)
    requires |a| >= 1 && t in a[|a| - 1].coins
    ensures t in Flat(a, |a| - 1) && Flat(a, |a| - 1)[t] == a[|a| - 1].coins[t]
  {
    hide Flat;
    FlatAt(a, |a| - 1);
  }

  lemma AlikeTrans(a: seq<Layer>, b: seq<Layer>, c: seq<Layer>)
    requires ReadAlike(a, b) && ReadAlike(b, c)
    ensures ReadAlike(a, c)
  {
    hide Flat;
  }

  function Batch(below: Utxo, m: Utxo, database: bool): Utxo { if database then Committed(below, m) else below + m }

  lemma BatchNone(below: Utxo, database: bool)
    ensures Batch(below, map[], database) == below
  {}

  lemma BatchStep(below: Utxo, m: Utxo, t: Txid, c: Coins, database: bool)
    ensures Batch(below, m[t := c], database) ==
            if database && c.IsPruned() then Batch(below, m, database) - {t} else Batch(below, m, database)[t := c]
  {}

  /** The writing loop of a batch, into a cache or into the database. */
  method BatchWrite(below: Utxo, m: Utxo, database: bool) returns (r: Utxo)
    ensures r == Batch(below, m, database)
  {
    hide Batch;
    r := below;
    BatchNone(below, database);
    var left := m.Keys;
    ghost var done: Utxo := map[];
    while left != {}
      invariant left <= m.Keys && done.Keys == m.Keys - left && forall t | t in done :: done[t] == m[t]
      invariant r == Batch(below, done, database)
      decreases |left|
    {
      var t: Txid :| t in left;
      BatchStep(below, done, t, m[t], database);
      if database && m[t].IsPruned() { r := r - {t}; } else { r := r[t := m[t]]; }
      done := done[t := m[t]];
      left := left - {t};
    }
    assert done == m;
  }

  // ---- transaction inputs through a cache ----

  /** All records a transaction spends from are held at the top level. */
  ghost predicate InputsCached(top: Layer, tx: Tx) { forall i | 0 <= i < |tx.vin| :: tx.vin[i].hash in top.coins }

  /** Once cached, what lies below does not matter. */
  lemma BackendIrrelevant(a: seq<Layer>, b: seq<Layer>, t: Txid)
    requires |a| >= 1 && |b| >= 1 && a[|a| - 1].coins == b[|b| - 1].coins && t in a[|a| - 1].coins
    ensures t in Flat(a, |a| - 1) && t in Flat(b, |b| - 1) && Flat(a, |a| - 1)[t] == Flat(b, |b| - 1)[t]
  {
    hide Flat;
    FlatAt(a, |a| - 1);
    FlatAt(b, |b| - 1);
  }

  lemma {:induction false} SameValueIn(u: Utxo, v: Utxo, vin: seq<OutPoint>)
    requires forall i | 0 <= i < |vin| :: HasOutput(u, vin[i]) && vin[i].hash in v && v[vin[i].hash] == u[vin[i].hash]
    ensures (forall i | 0 <= i < |vin| :: HasOutput(v, vin[i])) && ValueIn(u, vin) == ValueIn(v, vin)
  {
    if vin != [] { SameValueIn(u, v, vin[..|vin| - 1]); }
  }

  /** The inputs' value is the same over any two backends, once the inputs are cached. */
  lemma {:induction false} BackendSwap(a: seq<Layer>, b: seq<Layer>, tx: Tx)
    requires |a| >= 1 && |b| >= 1 && a[|a| - 1].coins == b[|b| - 1].coins && InputsCached(a[|a| - 1], tx)
    requires !tx.IsCoinBase() && InputsPresent(Flat(a, |a| - 1), tx)
    ensures InputsPresent(Flat(b, |b| - 1), tx) && ValueIn(Flat(a, |a| - 1), tx.vin) == ValueIn(Flat(b, |b| - 1), tx.vin)
  {
    hide Flat;
    forall i | 0 <= i < |tx.vin|
      ensures var t := tx.vin[i].hash; t in Flat(b, |b| - 1) && Flat(b, |b| - 1)[t] == Flat(a, |a| - 1)[t]
    {
      BackendIrrelevant(a, b, tx.vin[i].hash);
    }
    SameValueIn(Flat(a, |a| - 1), Flat(b, |b| - 1), tx.vin);
  }

  lemma {:induction false} AlikeInputs(a: seq<Layer>, b: seq<Layer>, tx: Tx)
    requires |a| >= 1 && ReadAlike(a, b)
    ensures InputsPresent(Flat(a, |a| - 1), tx) == InputsPresent(Flat(b, |b| - 1), tx)
    ensures !tx.IsCoinBase() && InputsPresent(Flat(a, |a| - 1), tx) ==> ValueIn(Flat(a, |a| - 1), tx.vin) == ValueIn(Flat(b, |b| - 1), tx.vin)
  {
    AlikeTop(a, b);
  }

  /** A fresh cache reads as the layers under it. */
  lemma FreshCacheReads(lower: seq<Layer>)
    requires |lower| >= 1
    ensures Flat(lower + [EMPTY_LAYER], |lower|) == Flat(lower, |lower| - 1)
  {
    hide Flat;
    PushReads(lower);
  }

  /** The memory pool's use of a throw-away cache: fetch the inputs over the pool's view, swap the backend for
      an empty one, and add up the inputs' value afterwards. */
  method PoolValueIn(tx: Tx, pool: seq<Layer>) returns (ok: bool, v: int)
    requires |pool| >= 1 && !tx.IsCoinBase()
    ensures ok == InputsPresent(Flat(pool, |pool| - 1), tx)
    ensures ok ==> v == ValueIn(Flat(pool, |pool| - 1), tx.vin)
  {
    hide Flat, Stack.Valid, ReadAlike, Best, InputsPresent, ValueIn, InputsCached;
    var view := new Stack(EMPTY_LAYER);
    view.Push();
    view.SetBackend(pool);
    FreshCacheReads(pool);
    ghost var start := view.layers;
    ok := view.HaveInputs(tx);
    v := 0;
    AlikeInputs(start, view.layers, tx);
    AlikeTop(start, view.layers);
    if !ok { return; }
    ghost var cached := view.layers;
    var best := view.GetBestBlock(view.Top());
    view.SetBackend([EMPTY_LAYER]);
    BackendSwap(cached, view.layers, tx);
    v := view.GetValueIn(tx);
  }
}
