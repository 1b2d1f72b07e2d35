/** Saving the address manager, and tables that are equal up to renumbering. */
module AddrManDisk {
  import opened Basics
  import opened AddrMan
  import opened AddrManInv
  import opened AddrManOps

  /** What `peers.dat` holds of the tables (the key belongs to the environment). */
  datatype Disk = Disk(
    nNew: nat, nTried: nat, nBuckets: int, newInfos: seq<Info>, triedInfos: seq<Info>, buckets: seq<seq<nat>>)

  /** The serialized fields of an entry; the others take the values a default-constructed entry has. */
  function OnDisk(i: Info): Info { i.(lastTry := 0, refCount := 0, inTried := false, randomPos := -1) }

  // ---- the order in which entries are written ----

  /** The new (or the tried) entries among some ids, in order. */
  function Pick(info: map<Id, Info>, ids: seq<Id>, tried: bool): (r: seq<Id>)
    requires forall j | j in ids :: j in info
  {
    if ids == [] then []
    else
      var n := |ids| - 1;
      assert ids[n] in ids;
      assert forall j | j in ids[..n] :: j in ids;
      Pick(info, ids[..n], tried) + (if info[ids[n]].inTried == tried then [ids[n]] else [])
  }

  lemma PickMembers(info: map<Id, Info>, ids: seq<Id>, tried: bool)
    requires forall j | j in ids :: j in info
    ensures forall j :: j in Pick(info, ids, tried) <==> j in ids && info[j].inTried == tried
    ensures Distinct(ids) ==> Distinct(Pick(info, ids, tried))
  {
    if ids != [] {
      var n := |ids| - 1;
      assert forall j | j in ids[..n] :: j in ids;
      PickMembers(info, ids[..n], tried);
      assert ids == ids[..n] + [ids[n]];
      if Distinct(ids) {
        assert Distinct(ids[..n]);
        assert ids[n] !in ids[..n];
      }
    }
  }

  /** All ids: the new entries in ascending order, then the tried ones. */
  function Order(info: map<Id, Info>): seq<Id>
  {
    var ids := Ascending(info.Keys);
    Pick(info, ids, false) + Pick(info, ids, true)
  }

  lemma SizeOfDistinct(v: seq<Id>, s: set<Id>)
    requires Distinct(v) && forall j :: j in v <==> j in s
    ensures |v| == |s|
  {
    if v == [] {
      assert s == {};
    } else {
      var n := |v| - 1;
      assert v == v[..n] + [v[n]];
      assert v[n] !in v[..n];
      SizeOfDistinct(v[..n], s - {v[n]});
    }
  }

  lemma AscendingDistinct(s: set<Id>)
    ensures Distinct(Ascending(s))
  {}

  lemma Concatenated(info: map<Id, Info>, a: seq<Id>, b: seq<Id>)
    requires Distinct(a) && Distinct(b)
    requires (forall j :: j in a <==> j in info && !info[j].inTried) && (forall j :: j in b <==> j in info && info[j].inTried)
    ensures Distinct(a + b) && (forall j :: j in a + b <==> j in info)
    ensures forall m | 0 <= m < |a + b| :: (a + b)[m] in info && (info[(a + b)[m]].inTried <==> m >= |a|)
  {
    var o := a + b;
    forall m | 0 <= m < |o| ensures o[m] in info && (info[o[m]].inTried <==> m >= |a|)
    {
      if m < |a| { assert o[m] in a; } else { assert o[m] in b; }
    }
    forall l, m | 0 <= l < m < |o| ensures o[l] != o[m]
    {
      if m < |a| { assert a[l] != a[m]; } else if l >= |a| { assert b[l - |a|] != b[m - |a|]; }
    }
  }

  lemma PickSizes(info: map<Id, Info>)
    ensures var ids := Ascending(info.Keys);
            |Pick(info, ids, false)| == |NewIds(info)| && |Pick(info, ids, true)| == |TriedIds(info)|
  {
    var ids := Ascending(info.Keys);
    AscendingDistinct(info.Keys);
    PickMembers(info, ids, false);
    PickMembers(info, ids, true);
    hide Pick, Ascending;
    SizeOfDistinct(Pick(info, ids, false), NewIds(info));
    SizeOfDistinct(Pick(info, ids, true), TriedIds(info));
  }

  /** `order` lists every entry once, new entries first. */
  ghost predicate Lists(info: map<Id, Info>, nNew: int, nTried: int, order: seq<Id>)
  {
    && |order| == nNew + nTried && nNew >= 0 && nTried >= 0 && Distinct(order) && (forall j :: j in order <==> j in info)
    && (forall m | 0 <= m < |order| :: order[m] in info && (info[order[m]].inTried <==> m >= nNew))
  }

  lemma OrderLists(env: Env, s: Tables)
    requires Inv(env, s, NOBODY)
    ensures Lists(s.info, s.nNew, s.nTried, Order(s.info))
  {
    hide RandomOk, AddrOk, NewOk, TriedOk, NewIds, TriedIds, Pick, Ascending, Distinct;
    var ids := Ascending(s.info.Keys);
    AscendingDistinct(s.info.Keys);
    PickMembers(s.info, ids, false);
    PickMembers(s.info, ids, true);
    PickSizes(s.info);
    Concatenated(s.info, Pick(s.info, ids, false), Pick(s.info, ids, true));
  }

  // ---- what a saved file is ----

  function Positions(order: seq<Id>, bucket: set<Id>): (r: set<nat>)
  {
    set m: nat | m < |order| && order[m] in bucket
  }

  ghost predicate Elements(v: seq<nat>, s: set<nat>) { Distinct(v) && forall m :: m in v <==> m in s }

  ghost predicate IsSaved(s: Tables, order: seq<Id>, d: Disk)
  {
    && d.nNew == s.nNew && d.nTried == s.nTried && |d.newInfos| == s.nNew && |d.triedInfos| == s.nTried
    && |order| == |d.newInfos + d.triedInfos| && |d.buckets| == |s.news| == d.nBuckets
    && (forall m | 0 <= m < |order| :: order[m] in s.info && (d.newInfos + d.triedInfos)[m] == OnDisk(s.info[order[m]]))
    && (forall b | 0 <= b < |s.news| :: Elements(d.buckets[b], Positions(order, s.news[b])))
  }

  // ---- loading ----

  /** Equal up to renumbering and memory-only fields: entry `order[m]` has become entry `m`. */
  ghost predicate Isomorphic(s: Tables, order: seq<Id>, t: Tables)
  {
    && Lists(s.info, s.nNew, s.nTried, order)
    && t.idCount == |order| && t.nNew == s.nNew && t.nTried == s.nTried
    && SameEntries(s.info, order, t.info, |order|)
    && (forall m | 0 <= m < |order| :: t.info[m].refCount == s.info[order[m]].refCount)
    && |t.random| == |order| && (forall m | 0 <= m < |order| :: t.random[m] == m)
    && SameAddresses(s.info, order, t.addr, |order|)
    && |t.tried| == |s.tried|
    && (forall k | 0 <= k < |t.tried| :: Elements(t.tried[k], Positions(order, BucketSet(s.tried[k]))))
    && |t.news| == |s.news| && (forall b | 0 <= b < |t.news| :: t.news[b] == Positions(order, s.news[b]))
  }

  function BucketSet(v: seq<Id>): set<Id> { set j | j in v }

  ghost predicate SameEntries(info: map<Id, Info>, order: seq<Id>, c: map<Id, Info>, n: nat)
  {
    && n <= |order|
    && (forall m: Id :: m in c <==> m < n)
    && (forall m | 0 <= m < n :: order[m] in info && m in c &&
          c[m] == OnDisk(info[order[m]]).(inTried := info[order[m]].inTried, randomPos := m, refCount := c[m].refCount))
  }

  ghost predicate SameAddresses(info: map<Id, Info>, order: seq<Id>, addr: map<Net, Id>, n: nat)
  {
    && n <= |order|
    && (forall m | 0 <= m < n :: order[m] in info && info[order[m]].addr.net in addr && addr[info[order[m]].addr.net] == m)
    && (forall a | a in addr :: addr[a] < n && order[addr[a]] in info && info[order[addr[a]]].addr.net == a)
  }

  // ---- a table isomorphic to a valid one is valid ----

  lemma PositionsLess(order: seq<Id>, bucket: set<Id>, m: nat)
    requires Distinct(order) && m < |order| && order[m] in bucket
    ensures |Positions(order, bucket)| == |Positions(order, bucket - {order[m]})| + 1
  {
    assert Positions(order, bucket) == Positions(order, bucket - {order[m]}) + {m};
  }

  lemma PositionsSize(order: seq<Id>, bucket: set<Id>)
    requires Distinct(order) && forall j | j in bucket :: j in order
    ensures |Positions(order, bucket)| == |bucket|
  {
    if bucket == {} {
      assert Positions(order, bucket) == {};
    } else {
      var j :| j in bucket;
      var m :| 0 <= m < |order| && order[m] == j;
      PositionsLess(order, bucket, m);
      PositionsSize(order, bucket - {j});
    }
  }

  lemma IsoRandomAddr(s: Tables, order: seq<Id>, t: Tables)
    requires Isomorphic(s, order, t)
    ensures RandomOk(t.info, t.random) && AddrOk(t.info, t.addr)
  {
    hide Lists, Elements, Positions, BucketSet;
  }

  /** What an entry and its renumbered copy share. */
  ghost predicate Twins(i: Info, j: Info) { i.addr == j.addr && i.inTried == j.inTried && i.refCount == j.refCount }

  lemma IsoEntries(s: Tables, order: seq<Id>, t: Tables)
    requires Isomorphic(s, order, t)
    ensures forall m: Id | m in t.info :: m < |order| && order[m] in s.info && Twins(s.info[order[m]], t.info[m])
    ensures forall m: Id | m < |order| :: m in t.info
  {
    hide Lists, Elements, Positions, BucketSet, SameAddresses;
  }

  lemma IsoBuckets(s: Tables, order: seq<Id>, t: Tables)
    requires Isomorphic(s, order, t)
    ensures Distinct(order) && |t.news| == |s.news| && |t.tried| == |s.tried| && forall j :: j in order <==> j in s.info
    ensures forall b | 0 <= b < |t.news| :: t.news[b] == Positions(order, s.news[b])
    ensures forall k | 0 <= k < |t.tried| :: Elements(t.tried[k], Positions(order, BucketSet(s.tried[k])))
  {
    hide Elements, Positions, BucketSet, SameAddresses, SameEntries, Distinct;
  }

  lemma PositionsIn(order: seq<Id>, bucket: set<Id>, m: Id)
    ensures m in Positions(order, bucket) <==> m < |order| && order[m] in bucket
  {}

  lemma RenumberedHolders(order: seq<Id>, news: seq<set<Id>>, r: seq<set<Id>>, m: Id)
    requires |r| == |news| && m < |order| && forall b | 0 <= b < |r| :: r[b] == Positions(order, news[b])
    ensures Holders(r, m) == Holders(news, order[m])
  {}

  lemma IsoNew(s: Tables, order: seq<Id>, t: Tables)
    requires Isomorphic(s, order, t) && NewOk(s.info, s.news, NOBODY)
    ensures NewOk(t.info, t.news, NOBODY)
  {
    hide Isomorphic, Positions, Holders, Distinct, Elements;
    IsoEntries(s, order, t);
    IsoBuckets(s, order, t);
    forall b | 0 <= b < |t.news| ensures |t.news[b]| <= NEW_SIZE
    {
      PositionsSize(order, s.news[b]);
    }
    forall b, m | 0 <= b < |t.news| && m in t.news[b] ensures m in t.info && !t.info[m].inTried
    {
      PositionsIn(order, s.news[b], m);
    }
    forall m | m in t.info && !t.info[m].inTried
      ensures t.info[m].refCount == |Holders(t.news, m)| && 1 <= t.info[m].refCount <= MAX_REFS
    {
      RenumberedHolders(order, s.news, t.news, m);
    }
  }

  lemma IsoTriedSize(s: Tables, order: seq<Id>, t: Tables, k: nat)
    requires Isomorphic(s, order, t) && k < |t.tried| && Distinct(s.tried[k]) && (forall j | j in s.tried[k] :: j in s.info)
    ensures |t.tried[k]| == |s.tried[k]| && Distinct(t.tried[k])
  {
    hide Isomorphic;
    IsoBuckets(s, order, t);
    PositionsSize(order, BucketSet(s.tried[k]));
    SizeOfDistinct(s.tried[k], BucketSet(s.tried[k]));
    SizeOfDistinct(t.tried[k], Positions(order, BucketSet(s.tried[k])));
  }

  lemma IsoTriedIn(s: Tables, order: seq<Id>, t: Tables, k: nat, m: Id)
    requires Isomorphic(s, order, t) && k < |t.tried| && m < |order|
    ensures m in t.tried[k] <==> order[m] in s.tried[k]
  {
    hide Isomorphic, Distinct;
    IsoBuckets(s, order, t);
  }

  lemma IsoTriedBelow(s: Tables, order: seq<Id>, t: Tables, k: nat, m: Id)
    requires Isomorphic(s, order, t) && k < |t.tried| && m in t.tried[k]
    ensures m < |order|
  {
    hide Isomorphic, Distinct;
    IsoBuckets(s, order, t);
  }

  lemma SameTriedBucket(env: Env, i: Info, j: Info)
    requires Twins(i, j)
    ensures TriedBucket(env, i) == TriedBucket(env, j)
  {}

  lemma IsoTried(env: Env, s: Tables, order: seq<Id>, t: Tables)
    requires Isomorphic(s, order, t) && TriedOk(env, s.info, s.tried)
    ensures TriedOk(env, t.info, t.tried)
  {
    hide Isomorphic, Elements, Positions, Distinct, TriedBucket, BucketSet;
    IsoEntries(s, order, t);
    IsoBuckets(s, order, t);
    forall k | 0 <= k < |t.tried| ensures |t.tried[k]| <= TRIED_SIZE && Distinct(t.tried[k])
    {
      IsoTriedSize(s, order, t, k);
    }
    forall k, m | 0 <= k < |t.tried| && m in t.tried[k] ensures m in t.info && t.info[m].inTried && TriedBucket(env, t.info[m]) == k
    {
      IsoTriedBelow(s, order, t, k, m);
      IsoTriedIn(s, order, t, k, m);
      SameTriedBucket(env, s.info[order[m]], t.info[m]);
    }
    forall m | m in t.info && t.info[m].inTried ensures t.info[m].refCount == 0 && m in t.tried[TriedBucket(env, t.info[m])]
    {
      SameTriedBucket(env, s.info[order[m]], t.info[m]);
      IsoTriedIn(s, order, t, TriedBucket(env, t.info[m]), m);
    }
  }

  lemma IsoCounts(s: Tables, order: seq<Id>, t: Tables)
    requires Isomorphic(s, order, t) && CountsOk(s.info, s.nNew, s.nTried, s.idCount)
    ensures CountsOk(t.info, t.nNew, t.nTried, t.idCount)
  {
    assert NewIds(t.info) == Positions(order, NewIds(s.info));
    assert TriedIds(t.info) == Positions(order, TriedIds(s.info));
    PositionsSize(order, NewIds(s.info));
    PositionsSize(order, TriedIds(s.info));
  }

  /** The invariant is re-established. */
  lemma IsoInv(env: Env, s: Tables, order: seq<Id>, t: Tables)
    requires Isomorphic(s, order, t) && Inv(env, s, NOBODY)
    ensures Inv(env, t, NOBODY)
  {
    hide RandomOk, AddrOk, NewOk, TriedOk, CountsOk, Isomorphic;
    IsoRandomAddr(s, order, t);
    IsoNew(s, order, t);
    IsoTried(env, s, order, t);
    IsoCounts(s, order, t);
  }

  // ---- saving ----

  lemma PickPrefix(info: map<Id, Info>, ids: seq<Id>, tried: bool, i: nat)
    requires i <= |ids| && forall j | j in ids :: j in info
    ensures forall j | j in ids[..i] :: j in info
    ensures Pick(info, ids[..i], tried) <= Pick(info, ids, tried)
  {
    if i < |ids| {
      var n := |ids| - 1;
      assert forall j | j in ids[..n] :: j in ids;
      PickPrefix(info, ids[..n], tried, i);
      assert ids[..n][..i] == ids[..i];
    } else {
      assert ids[..i] == ids;
    }
  }

  lemma PickStep(info: map<Id, Info>, ids: seq<Id>, tried: bool, i: nat)
    requires i < |ids| && Distinct(ids) && forall j | j in ids :: j in info
    ensures (forall j | j in ids[..i] :: j in info) && (forall j | j in ids[..i + 1] :: j in info) && ids[i] in info
    ensures Pick(info, ids[..i + 1], tried) ==
            Pick(info, ids[..i], tried) + (if info[ids[i]].inTried == tried then [ids[i]] else [])
    ensures ids[i] !in Pick(info, ids[..i], tried)
  {
    assert ids[i] in ids;
    assert ids[..i + 1][..i] == ids[..i];
    assert forall j | j in ids[..i] :: j in ids;
    PickMembers(info, ids[..i], tried);
    assert ids[i] !in ids[..i];
  }

  ghost predicate Written(info: map<Id, Info>, v: seq<Id>, infos: seq<Info>)
  {
    |infos| == |v| && forall m | 0 <= m < |v| :: v[m] in info && infos[m] == OnDisk(info[v[m]])
  }

  ghost predicate Numbered(v: seq<Id>, unk: map<Id, nat>) { forall m | 0 <= m < |v| :: v[m] in unk && unk[v[m]] == m }

  ghost predicate CountedRight(info: map<Id, Info>) { forall j | j in info :: info[j].refCount != 0 <==> !info[j].inTried }

  /** The first pass of the writer: new entries, stopping when all announced ones are written. */
  method WriteNew(info: map<Id, Info>, nNew: int, ids: seq<Id>) returns (infos: seq<Info>, unk: map<Id, nat>)
    requires Distinct(ids) && (forall j | j in ids :: j in info) && CountedRight(info) && nNew == |Pick(info, ids, false)|
    ensures Written(info, Pick(info, ids, false), infos) && Numbered(Pick(info, ids, false), unk)
  {
    hide Pick;
    infos, unk := [], map[];
    var nIds: nat := 0;
    var i: nat := 0;
    PickPrefix(info, ids, false, 0);
    PickNone(info, ids, false);
    while i < |ids| && nIds != nNew
      invariant i <= |ids| && nIds == |infos| && forall j | j in ids[..i] :: j in info
      invariant Written(info, Pick(info, ids[..i], false), infos) && Numbered(Pick(info, ids[..i], false), unk)
    {
      PickStep(info, ids, false, i);
      unk := unk[ids[i] := nIds];
      if info[ids[i]].refCount != 0 {
        infos := infos + [OnDisk(info[ids[i]])];
        nIds := nIds + 1;
      }
      i := i + 1;
    }
    PickPrefix(info, ids, false, i);
    assert i == |ids| ==> ids[..i] == ids;
    assert Pick(info, ids[..i], false) == Pick(info, ids, false);
  }

  lemma PickNone(info: map<Id, Info>, ids: seq<Id>, tried: bool)
    ensures Pick(info, ids[..0], tried) == []
  {}

  /** The second pass: tried entries. */
  method WriteTried(info: map<Id, Info>, nTried: int, ids: seq<Id>) returns (infos: seq<Info>)
    requires Distinct(ids) && (forall j | j in ids :: j in info) && nTried == |Pick(info, ids, true)|
    ensures Written(info, Pick(info, ids, true), infos)
  {
    hide Pick;
    infos := [];
    var nIds: nat := 0;
    var i: nat := 0;
    PickPrefix(info, ids, true, 0);
    PickNone(info, ids, true);
    while i < |ids| && nIds != nTried
      invariant i <= |ids| && nIds == |infos| && forall j | j in ids[..i] :: j in info
      invariant Written(info, Pick(info, ids[..i], true), infos)
    {
      PickStep(info, ids, true, i);
      if info[ids[i]].inTried {
        infos := infos + [OnDisk(info[ids[i]])];
        nIds := nIds + 1;
      }
      i := i + 1;
    }
    PickPrefix(info, ids, true, i);
    assert i == |ids| ==> ids[..i] == ids;
    assert Pick(info, ids[..i], true) == Pick(info, ids, true);
  }

  /** The members of one new bucket, by their new numbers. */
  method WriteBucket(bucket: set<Id>, unk: map<Id, nat>, ghost order: seq<Id>) returns (v: seq<nat>)
    requires Distinct(order)
    requires forall j | j in bucket :: j in unk && unk[j] < |order| && order[unk[j]] == j
    ensures Elements(v, Positions(order, bucket))
  {
    var a := Ascending(bucket);
    v := [];
    var p: nat := 0;
    while p < |a|
      invariant p <= |a| && |v| == p
      invariant forall q | 0 <= q < p :: a[q] in unk && v[q] == unk[a[q]]
    {
      assert a[p] in a;
      v := v + [unk[a[p]]];
      p := p + 1;
    }
    AscendingDistinct(bucket);
    RenumberElements(a, bucket, unk, order, v);
  }

  lemma RenumberElements(a: seq<Id>, bucket: set<Id>, unk: map<Id, nat>, order: seq<Id>, v: seq<nat>)
    requires Distinct(order) && Distinct(a) && |v| == |a| && forall j :: j in a <==> j in bucket
    requires forall j | j in bucket :: j in unk && unk[j] < |order| && order[unk[j]] == j
    requires forall q | 0 <= q < |v| :: a[q] in unk && v[q] == unk[a[q]]
    ensures Elements(v, Positions(order, bucket))
  {
    forall q | 0 <= q < |v| ensures v[q] < |order| && order[v[q]] == a[q] && a[q] in bucket
    {
      assert a[q] in a;
    }
    forall m | m in Positions(order, bucket) ensures m in v
    {
      var q :| 0 <= q < |a| && a[q] == order[m];
      assert v[q] == m;
    }
  }

  method WriteBuckets(env: Env, s: Tables, unk: map<Id, nat>) returns (buckets: seq<seq<nat>>)
    requires Inv(env, s, NOBODY) && Numbered(Pick(s.info, Ascending(s.info.Keys), false), unk)
    ensures |buckets| == |s.news|
    ensures forall c | 0 <= c < |s.news| :: Elements(buckets[c], Positions(Order(s.info), s.news[c]))
  {
    hide Inv, Pick, Order, Ascending, Distinct, Elements, Positions, Numbered;
    OrderDistinct(env, s);
    buckets := [];
    var k: nat := 0;
    while k < |s.news|
      invariant k <= |s.news| && |buckets| == k
      invariant forall c | 0 <= c < k :: Elements(buckets[c], Positions(Order(s.info), s.news[c]))
    {
      NumbersKnown(env, s, unk, k);
      var v := WriteBucket(s.news[k], unk, Order(s.info));
      buckets := buckets + [v];
      k := k + 1;
    }
  }

  lemma OrderDistinct(env: Env, s: Tables)
    requires Inv(env, s, NOBODY)
    ensures Distinct(Order(s.info))
  {
    hide Inv, Distinct, Order;
    OrderLists(env, s);
  }

  method Save(env: Env, s: Tables) returns (d: Disk)
    requires Inv(env, s, NOBODY)
    ensures IsSaved(s, Order(s.info), d)
  {
    hide Inv, Pick, Ascending, Distinct, Elements, Positions, Numbered, CountedRight, NewIds, TriedIds;
    RefsRight(env, s);
    PickSizes(s.info);
    AscendingDistinct(s.info.Keys);
    var ids := Ascending(s.info.Keys);
    var newInfos, unk := WriteNew(s.info, s.nNew, ids);
    var triedInfos := WriteTried(s.info, s.nTried, ids);
    var buckets := WriteBuckets(env, s, unk);
    d := Disk(s.nNew, s.nTried, |s.news|, newInfos, triedInfos, buckets);
  }

  lemma RefsRight(env: Env, s: Tables)
    requires Inv(env, s, NOBODY)
    ensures CountedRight(s.info) && s.nNew == |NewIds(s.info)| && s.nTried == |TriedIds(s.info)|
  {
    hide RandomOk, AddrOk, Holders, Distinct, TriedBucket, NewIds, TriedIds;
  }

  lemma ListedAreNew(env: Env, s: Tables, k: nat)
    requires Inv(env, s, NOBODY) && k < |s.news|
    ensures forall j | j in s.news[k] :: j in s.info && !s.info[j].inTried
  {
    hide RandomOk, AddrOk, TriedOk, CountsOk, Holders;
  }

  lemma NumbersKnown(env: Env, s: Tables, unk: map<Id, nat>, k: nat)
    requires Inv(env, s, NOBODY) && k < |s.news| && Numbered(Pick(s.info, Ascending(s.info.Keys), false), unk)
    ensures var order := Order(s.info); forall j | j in s.news[k] :: j in unk && unk[j] < |order| && order[unk[j]] == j
  {
    hide Inv, Pick, Distinct;
    ListedAreNew(env, s, k);
    var ids := Ascending(s.info.Keys);
    var a := Pick(s.info, ids, false);
    PickMembers(s.info, ids, false);
    forall j | j in s.news[k] ensures j in unk && unk[j] < |a| && a[unk[j]] == j
    {
      assert j in a;
      var m :| 0 <= m < |a| && a[m] == j;
    }
  }
}
