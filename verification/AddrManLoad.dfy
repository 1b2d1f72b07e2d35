/** Loading the address manager from any file that can be read: what the tables then are, exactly when they are
    valid, and that loading what was saved loses nothing. */
module AddrManLoad {
  import opened Basics
  import opened AddrMan
  import opened AddrManInv
  import opened AddrManDisk

  /** The file holds everything it announces; reading it fails otherwise. */
  predicate Readable(d: Disk)
  {
    |d.newInfos| == d.nNew && |d.triedInfos| == d.nTried && |d.buckets| == Max(d.nBuckets, 0)
  }

  /** Whether the file's own new buckets are used; they are rebuilt otherwise. */
  predicate SameBuckets(d: Disk) { d.nBuckets == NEW_BUCKETS }

  // ---- what a file says ----

  /** The ids, counted from `base`, of the entries that belong in tried bucket `k`. */
  function Column(env: Env, base: nat, v: seq<Info>, k: nat): seq<Id>
  {
    if v == [] then []
    else
      var n := |v| - 1;
      Column(env, base, v[..n], k) + (if TriedBucket(env, v[n]) == k then [base + n] else [])
  }

  /** The tried entries that find room: of each bucket, the first 64. */
  function Kept(env: Env, base: nat, v: seq<Info>): (r: seq<Info>)
    ensures |r| <= |v|
  {
    if v == [] then []
    else
      var n := |v| - 1;
      var r := Kept(env, base, v[..n]);
      if |Column(env, base, r, TriedBucket(env, v[n]))| < TRIED_SIZE then r + [v[n]] else r
  }

  /** All entries that are loaded, in the order of their ids. */
  function Entries(env: Env, d: Disk): seq<Info> { d.newInfos + Kept(env, d.nNew, d.triedInfos) }

  /** The address index: the last entry with an address wins. */
  function AddrIndex(v: seq<Info>): map<Net, Id>
  {
    if v == [] then map[] else AddrIndex(v[..|v| - 1])[v[|v| - 1].addr.net := |v| - 1]
  }

  /** How often an id is listed. */
  function Listings(lists: seq<seq<nat>>, m: Id): nat
  {
    if lists == [] then 0 else Listings(lists[..|lists| - 1], m) + multiset(lists[|lists| - 1])[m]
  }

  function ListedIds(lists: seq<seq<nat>>): set<Id>
  {
    if lists == [] then {} else ListedIds(lists[..|lists| - 1]) + BucketSet(lists[|lists| - 1])
  }

  /** The ids of one list that were listed fewer than four times before. */
  function Below(before: seq<seq<nat>>, list: seq<nat>): set<Id> { set m | m in list && Listings(before, m) < MAX_REFS }

  /** The new entries that belong in new bucket `b` by their own source. */
  function Homed(env: Env, v: seq<Info>, b: nat): set<Id>
  {
    set m: nat | m < |v| && NewBucket(env, v[m], v[m].source) == b
  }

  /** The new buckets after reading some of the lists. */
  function NewsAfter(env: Env, d: Disk, lists: seq<seq<nat>>): (r: seq<set<Id>>)
    ensures |r| == NEW_BUCKETS
  {
    seq(NEW_BUCKETS, b requires 0 <= b < NEW_BUCKETS =>
      if !SameBuckets(d) then Homed(env, d.newInfos, b)
      else if b < |lists| then Below(lists[..b], lists[b])
      else {})
  }

  /** A default-constructed entry; looking up an unknown id inserts one. */
  const BLANK: Info := Info(Service(0, 0), 1, 100000000, 0, 0, 0, 0, 0, false, -1)

  function RefsAfter(d: Disk, lists: seq<seq<nat>>, m: Id): int
  {
    if SameBuckets(d) then Min(MAX_REFS, Listings(lists, m)) else if m < d.nNew then 1 else 0
  }

  function EntryAfter(d: Disk, v: seq<Info>, lists: seq<seq<nat>>, m: Id): Info
  {
    (if m < |v| then OnDisk(v[m]).(inTried := m >= d.nNew, randomPos := m) else BLANK).(refCount := RefsAfter(d, lists, m))
  }

  function InfoAfter(d: Disk, v: seq<Info>, lists: seq<seq<nat>>): map<Id, Info>
  {
    map m | m in Numbers(|v|) + ListedIds(lists) :: EntryAfter(d, v, lists, m)
  }

  function Numbers(n: nat): (r: set<Id>)
    ensures forall m: Id :: m in r <==> m < n
  {
    if n == 0 then {} else Numbers(n - 1) + {n - 1}
  }

  function Columns(env: Env, base: nat, v: seq<Info>): (r: seq<seq<Id>>)
    ensures |r| == TRIED_BUCKETS
  {
    seq(TRIED_BUCKETS, k requires 0 <= k < TRIED_BUCKETS => Column(env, base, v, k))
  }

  function FirstIds(n: nat): (r: seq<Id>)
    ensures |r| == n && forall m: Id | m < n :: r[m] == m
  {
    seq(n, m => m)
  }

  /** The tables a file is loaded into. */
  function Loaded(env: Env, d: Disk): Tables
  {
    var v := Entries(env, d);
    var kept := Kept(env, d.nNew, d.triedInfos);
    Tables(|v|, InfoAfter(d, v, d.buckets), AddrIndex(v), FirstIds(|v|),
           |kept|, Columns(env, d.nNew, kept), d.nNew, NewsAfter(env, d, d.buckets))
  }

  // ---- the reader ----

  lemma EntryAdded(d: Disk, v: seq<Info>, i: Info)
    ensures InfoAfter(d, v + [i], []) == InfoAfter(d, v, [])[|v| := EntryAfter(d, v + [i], [], |v|)]
  {
    assert ListedIds([]) == {};
    var w := v + [i];
    forall m: Id | m < |v| ensures EntryAfter(d, w, [], m) == EntryAfter(d, v, [], m)
    {
      SameEntry(d, v, w, m);
    }
    hide EntryAfter, ListedIds;
    MapSame(InfoAfter(d, w, []), InfoAfter(d, v, [])[|v| := EntryAfter(d, w, [], |v|)]);
  }

  lemma SameEntry(d: Disk, v: seq<Info>, w: seq<Info>, m: Id)
    requires v <= w && m < |v|
    ensures EntryAfter(d, w, [], m) == EntryAfter(d, v, [], m)
  {
    hide OnDisk, RefsAfter;
  }

  lemma IndexAdded(v: seq<Info>, i: Info)
    ensures AddrIndex(v + [i]) == AddrIndex(v)[i.addr.net := |v|]
  {
    assert (v + [i])[..|v|] == v;
  }

  lemma HomedAdded(env: Env, v: seq<Info>, i: Info, b: nat)
    ensures Homed(env, v + [i], b) == Homed(env, v, b) + (if NewBucket(env, i, i.source) == b then {|v|} else {})
  {}

  /** The buckets rebuilt from the first `n` new entries, or nothing yet. */
  function Rebuilt(env: Env, d: Disk, n: nat): (r: seq<set<Id>>)
    requires n <= |d.newInfos|
    ensures |r| == NEW_BUCKETS
  {
    seq(NEW_BUCKETS, b requires 0 <= b < NEW_BUCKETS => if SameBuckets(d) then {} else Homed(env, d.newInfos[..n], b))
  }

  lemma RebuiltStep(env: Env, d: Disk, n: nat)
    requires n < |d.newInfos|
    ensures var i := d.newInfos[n];
            var b := NewBucket(env, i, i.source);
            Rebuilt(env, d, n + 1) ==
            if SameBuckets(d) then Rebuilt(env, d, n) else Rebuilt(env, d, n)[b := Rebuilt(env, d, n)[b] + {n}]
  {
    hide Homed, NewBucket;
    assert d.newInfos[..n + 1] == d.newInfos[..n] + [d.newInfos[n]];
    forall b: nat ensures Homed(env, d.newInfos[..n + 1], b) ==
      Homed(env, d.newInfos[..n], b) + (if NewBucket(env, d.newInfos[n], d.newInfos[n].source) == b then {n} else {})
    {
      HomedAdded(env, d.newInfos[..n], d.newInfos[n], b);
    }
    var b := NewBucket(env, d.newInfos[n], d.newInfos[n].source);
    var r := if SameBuckets(d) then Rebuilt(env, d, n) else Rebuilt(env, d, n)[b := Rebuilt(env, d, n)[b] + {n}];
    assert forall c | 0 <= c < NEW_BUCKETS :: Rebuilt(env, d, n + 1)[c] == r[c];
  }

  lemma RebuiltEnds(env: Env, d: Disk)
    requires Readable(d)
    ensures Rebuilt(env, d, d.nNew) == NewsAfter(env, d, [])
  {
    assert d.newInfos[..d.nNew] == d.newInfos;
  }

  lemma Nothing(env: Env, d: Disk)
    ensures InfoAfter(d, [], []) == map[] && AddrIndex([]) == map[] && FirstIds(0) == []
    ensures Rebuilt(env, d, 0) == seq(NEW_BUCKETS, _ => {})
  {
    var none: seq<set<Id>> := seq(NEW_BUCKETS, _ => {});
    assert forall c | 0 <= c < NEW_BUCKETS :: Rebuilt(env, d, 0)[c] == none[c];
  }

  /** The new entries, and their buckets if these are rebuilt. */
  method LoadNew(env: Env, d: Disk) returns (info: map<Id, Info>, addr: map<Net, Id>, random: seq<Id>, news: seq<set<Id>>)
    requires Readable(d)
    ensures info == InfoAfter(d, d.newInfos, []) && addr == AddrIndex(d.newInfos) && random == FirstIds(d.nNew)
    ensures news == NewsAfter(env, d, [])
  {
    hide InfoAfter, AddrIndex, NewsAfter, Rebuilt, NewBucket, FirstIds;
    info, addr, random, news := map[], map[], [], seq(NEW_BUCKETS, _ => {});
    Nothing(env, d);
    assert d.newInfos[..0] == [];
    var n: nat := 0;
    while n < d.nNew
      invariant n <= d.nNew && info == InfoAfter(d, d.newInfos[..n], []) && addr == AddrIndex(d.newInfos[..n])
      invariant random == FirstIds(n) && news == Rebuilt(env, d, n)
    {
      var e := d.newInfos[n];
      assert d.newInfos[..n + 1] == d.newInfos[..n] + [e];
      EntryAdded(d, d.newInfos[..n], e);
      IndexAdded(d.newInfos[..n], e);
      RebuiltStep(env, d, n);
      var i := OnDisk(e).(randomPos := |random|);
      addr := addr[e.addr.net := n];
      random := random + [n];
      if !SameBuckets(d) {
        var b := NewBucket(env, e, e.source);
        news := news[b := news[b] + {n}];
        i := i.(refCount := i.refCount + 1);
      }
      info := info[n := i];
      n := n + 1;
    }
    assert d.newInfos[..n] == d.newInfos;
    RebuiltEnds(env, d);
  }

  lemma ColumnsAdded(env: Env, base: nat, v: seq<Info>, i: Info)
    ensures var k := TriedBucket(env, i);
            Columns(env, base, v + [i]) == Columns(env, base, v)[k := Columns(env, base, v)[k] + [base + |v|]]
  {
    hide TriedBucket;
    assert (v + [i])[..|v|] == v;
    var k := TriedBucket(env, i);
    var r := Columns(env, base, v)[k := Columns(env, base, v)[k] + [base + |v|]];
    assert forall c | 0 <= c < TRIED_BUCKETS :: Columns(env, base, v + [i])[c] == r[c];
  }

  lemma KeptStep(env: Env, base: nat, v: seq<Info>, n: nat)
    requires n < |v|
    ensures var r := Kept(env, base, v[..n]);
            Kept(env, base, v[..n + 1]) ==
            if |Column(env, base, r, TriedBucket(env, v[n]))| < TRIED_SIZE then r + [v[n]] else r
  {
    hide TriedBucket;
    assert v[..n + 1][..n] == v[..n];
  }

  lemma NoColumns(env: Env, base: nat)
    ensures Columns(env, base, []) == seq(TRIED_BUCKETS, _ => []) && Kept(env, base, []) == []
  {}

  /** The tried entries that find room in their buckets; `lost` counts the others. */
  method LoadTried(env: Env, d: Disk, info0: map<Id, Info>, addr0: map<Net, Id>, random0: seq<Id>)
    returns (info: map<Id, Info>, addr: map<Net, Id>, random: seq<Id>, tried: seq<seq<Id>>, idCount: nat, lost: nat)
    requires Readable(d)
    requires info0 == InfoAfter(d, d.newInfos, []) && addr0 == AddrIndex(d.newInfos) && random0 == FirstIds(d.nNew)
    ensures var v := Entries(env, d);
            && info == InfoAfter(d, v, []) && addr == AddrIndex(v) && random == FirstIds(|v|) && idCount == |v|
            && tried == Columns(env, d.nNew, Kept(env, d.nNew, d.triedInfos)) && d.nTried - lost == |v| - d.nNew
  {
    hide InfoAfter, AddrIndex, Columns, Column, Kept, TriedBucket, FirstIds;
    info, addr, random := info0, addr0, random0;
    tried := seq(TRIED_BUCKETS, _ => []);
    NoColumns(env, d.nNew);
    idCount, lost := d.nNew, 0;
    var n: nat := 0;
    ghost var kept: seq<Info> := [];
    assert d.triedInfos[..0] == [] && d.newInfos + [] == d.newInfos;
    while n < d.nTried
      invariant n <= d.nTried && kept == Kept(env, d.nNew, d.triedInfos[..n]) && n - lost == |kept| && idCount == d.nNew + |kept|
      invariant info == InfoAfter(d, d.newInfos + kept, []) && addr == AddrIndex(d.newInfos + kept)
      invariant random == FirstIds(idCount) && tried == Columns(env, d.nNew, kept)
    {
      var e := d.triedInfos[n];
      var k := TriedBucket(env, e);
      KeptStep(env, d.nNew, d.triedInfos, n);
      ColumnAt(env, d.nNew, kept, k);
      if |tried[k]| < TRIED_SIZE {
        EntryAdded(d, d.newInfos + kept, e);
        IndexAdded(d.newInfos + kept, e);
        ColumnsAdded(env, d.nNew, kept, e);
        assert d.newInfos + (kept + [e]) == d.newInfos + kept + [e];
        var i := OnDisk(e).(randomPos := |random|, inTried := true);
        random := random + [idCount];
        info := info[idCount := i];
        addr := addr[e.addr.net := idCount];
        tried := tried[k := tried[k] + [idCount]];
        idCount := idCount + 1;
        kept := kept + [e];
      } else {
        lost := lost + 1;
      }
      n := n + 1;
    }
    assert d.triedInfos[..n] == d.triedInfos;
  }

  lemma ColumnAt(env: Env, base: nat, v: seq<Info>, k: nat)
    requires k < TRIED_BUCKETS
    ensures Columns(env, base, v)[k] == Column(env, base, v, k)
  {}

  // ---- reading the bucket lists ----

  lemma ListingsAdded(before: seq<seq<nat>>, list: seq<nat>, m: Id, j: Id)
    ensures Listings(before + [list], j) == Listings(before, j) + multiset(list)[j]
    ensures Listings(before + [list + [m]], j) == Listings(before + [list], j) + (if j == m then 1 else 0)
  {
    assert (before + [list])[..|before|] == before && (before + [list + [m]])[..|before|] == before;
  }

  lemma IdsAdded(before: seq<seq<nat>>, list: seq<nat>, m: Id)
    ensures ListedIds(before + [list + [m]]) == ListedIds(before + [list]) + {m}
  {
    assert (before + [list])[..|before|] == before && (before + [list + [m]])[..|before|] == before;
    assert BucketSet(list + [m]) == BucketSet(list) + {m};
  }

  /** The entry an id names, inserting a blank one if it names none. */
  function Named(info: map<Id, Info>, m: Id): Info { if m in info then info[m] else BLANK }

  lemma EntryListed(d: Disk, v: seq<Info>, before: seq<seq<nat>>, list: seq<nat>, m: Id)
    ensures var a, b := before + [list], before + [list + [m]];
            var i := EntryAfter(d, v, a, m);
            && EntryAfter(d, v, b, m) == (if SameBuckets(d) && i.refCount < MAX_REFS then i.(refCount := i.refCount + 1) else i)
            && forall j: Id | j != m :: EntryAfter(d, v, b, j) == EntryAfter(d, v, a, j)
  {
    var a, b := before + [list], before + [list + [m]];
    forall j: Id ensures Listings(b, j) == Listings(a, j) + (if j == m then 1 else 0)
    {
      ListingsAdded(before, list, m, j);
    }
    hide Listings, OnDisk;
  }

  lemma NamedIs(d: Disk, v: seq<Info>, lists: seq<seq<nat>>, m: Id)
    requires d.nNew <= |v|
    ensures Named(InfoAfter(d, v, lists), m) == EntryAfter(d, v, lists, m)
    ensures SameBuckets(d) ==> EntryAfter(d, v, lists, m).refCount == Min(MAX_REFS, Listings(lists, m))
  {
    NotListed(lists, m);
    hide Listings, ListedIds, OnDisk;
  }

  lemma InfoListed(d: Disk, v: seq<Info>, before: seq<seq<nat>>, list: seq<nat>, m: Id)
    requires d.nNew <= |v|
    ensures var info := InfoAfter(d, v, before + [list]);
            var i := Named(info, m);
            && (SameBuckets(d) ==> i.refCount == Min(MAX_REFS, Listings(before + [list], m)))
            && InfoAfter(d, v, before + [list + [m]]) ==
               info[m := if SameBuckets(d) && i.refCount < MAX_REFS then i.(refCount := i.refCount + 1) else i]
  {
    hide EntryAfter, Listings, ListedIds, Named;
    NamedIs(d, v, before + [list], m);
    EntryListed(d, v, before, list, m);
    IdsAdded(before, list, m);
    var info := InfoAfter(d, v, before + [list]);
    var i := EntryAfter(d, v, before + [list], m);
    MapSame(InfoAfter(d, v, before + [list + [m]]),
            info[m := if SameBuckets(d) && i.refCount < MAX_REFS then i.(refCount := i.refCount + 1) else i]);
  }

  lemma MapSame(a: map<Id, Info>, b: map<Id, Info>)
    requires a.Keys == b.Keys && forall j | j in a :: a[j] == b[j]
    ensures a == b
  {}

  lemma {:induction false} NotListed(lists: seq<seq<nat>>, m: Id)
    ensures Listings(lists, m) == 0 <==> m !in ListedIds(lists)
  {
    if lists != [] {
      var n := |lists| - 1;
      NotListed(lists[..n], m);
    }
  }

  /** Reading one id into bucket `|before|`. */
  lemma NewsListed(env: Env, d: Disk, before: seq<seq<nat>>, list: seq<nat>, m: Id)
    requires SameBuckets(d) && |before| < NEW_BUCKETS
    ensures var b := |before|;
            var news := NewsAfter(env, d, before + [list]);
            NewsAfter(env, d, before + [list + [m]]) ==
            if Listings(before + [list], m) < MAX_REFS then news[b := news[b] + {m}] else news
  {
    var x, y, b := before + [list], before + [list + [m]], |before|;
    ListingsAdded(before, list, m, m);
    assert x[..b] == before && y[..b] == before;
    assert forall c | 0 <= c < b :: x[..c] == before[..c] && y[..c] == before[..c] && x[c] == y[c];
    BelowAdded(before, list, m);
    var news := NewsAfter(env, d, x);
    var r := if Listings(x, m) < MAX_REFS then news[b := news[b] + {m}] else news;
    hide Below, Listings;
    assert forall c | 0 <= c < NEW_BUCKETS :: NewsAfter(env, d, y)[c] == r[c];
  }

  lemma BelowAdded(before: seq<seq<nat>>, list: seq<nat>, m: Id)
    ensures Below(before, list + [m]) ==
            if Listings(before + [list], m) < MAX_REFS then Below(before, list) + {m} else Below(before, list)
  {
    ListingsAdded(before, list, m, m);
    hide Listings;
  }

  /** An empty list changes nothing. */
  lemma ListOpened(env: Env, d: Disk, v: seq<Info>, before: seq<seq<nat>>)
    ensures InfoAfter(d, v, before + [[]]) == InfoAfter(d, v, before)
    ensures NewsAfter(env, d, before + [[]]) == NewsAfter(env, d, before)
  {
    var x := before + [[]];
    assert x[..|before|] == before;
    forall j: Id ensures Listings(x, j) == Listings(before, j)
    {
      ListingsAdded(before, [], j, j);
    }
    assert Below(before, []) == {};
    assert forall c | 0 <= c < |before| :: x[..c] == before[..c];
    hide Below, Listings;
    assert forall c | 0 <= c < NEW_BUCKETS :: NewsAfter(env, d, x)[c] == NewsAfter(env, d, before)[c];
  }

  /** One bucket's list. */
  method LoadBucket(env: Env, d: Disk, b: nat, info0: map<Id, Info>, news0: seq<set<Id>>, ghost v: seq<Info>)
    returns (info: map<Id, Info>, news: seq<set<Id>>)
    requires Readable(d) && b < |d.buckets| && d.nNew <= |v|
    requires info0 == InfoAfter(d, v, d.buckets[..b]) && news0 == NewsAfter(env, d, d.buckets[..b])
    ensures info == InfoAfter(d, v, d.buckets[..b + 1]) && news == NewsAfter(env, d, d.buckets[..b + 1])
  {
    hide InfoAfter, NewsAfter, Listings, Named;
    info, news := info0, news0;
    var list := d.buckets[b];
    ghost var before := d.buckets[..b];
    ListOpened(env, d, v, before);
    assert list[..0] == [];
    var n: nat := 0;
    while n < |list|
      invariant n <= |list| && info == InfoAfter(d, v, before + [list[..n]]) && news == NewsAfter(env, d, before + [list[..n]])
    {
      var m := list[n];
      assert list[..n + 1] == list[..n] + [m];
      InfoListed(d, v, before, list[..n], m);
      var i := Named(info, m);
      if SameBuckets(d) {
        NewsListed(env, d, before, list[..n], m);
        if i.refCount < MAX_REFS {
          i := i.(refCount := i.refCount + 1);
          news := news[b := news[b] + {m}];
        }
      } else {
        NewsIgnored(env, d, before + [list[..n]], before + [list[..n + 1]]);
      }
      info := info[m := i];
      n := n + 1;
    }
    assert list[..n] == list && d.buckets[..b + 1] == before + [list];
  }

  lemma NewsIgnored(env: Env, d: Disk, a: seq<seq<nat>>, b: seq<seq<nat>>)
    requires !SameBuckets(d)
    ensures NewsAfter(env, d, a) == NewsAfter(env, d, b)
  {}

  /** All bucket lists. */
  method LoadBuckets(env: Env, d: Disk, info0: map<Id, Info>, news0: seq<set<Id>>, ghost v: seq<Info>)
    returns (info: map<Id, Info>, news: seq<set<Id>>)
    requires Readable(d) && d.nNew <= |v| && info0 == InfoAfter(d, v, []) && news0 == NewsAfter(env, d, [])
    ensures info == InfoAfter(d, v, d.buckets) && news == NewsAfter(env, d, d.buckets)
  {
    hide InfoAfter, NewsAfter;
    info, news := info0, news0;
    var b: nat := 0;
    assert d.buckets[..0] == [];
    while b < d.nBuckets
      invariant b <= |d.buckets| && info == InfoAfter(d, v, d.buckets[..b]) && news == NewsAfter(env, d, d.buckets[..b])
    {
      info, news := LoadBucket(env, d, b, info, news, v);
      b := b + 1;
    }
    assert d.buckets[..b] == d.buckets;
  }

  /** The reader as a whole. */
  method Load(env: Env, d: Disk) returns (t: Tables, lost: nat)
    requires Readable(d)
    ensures t == Loaded(env, d) && d.nTried - lost == t.nTried
  {
    hide InfoAfter, NewsAfter, Columns, Kept, AddrIndex;
    var info, addr, random, news := LoadNew(env, d);
    var tried, idCount;
    info, addr, random, tried, idCount, lost := LoadTried(env, d, info, addr, random);
    info, news := LoadBuckets(env, d, info, news, Entries(env, d));
    t := Tables(idCount, info, addr, random, d.nTried - lost, tried, d.nNew, news);
  }

  // ---- when the loaded tables are valid ----

  ghost predicate DistinctNets(v: seq<Info>) { forall i, j | 0 <= i < j < |v| :: v[i].addr.net != v[j].addr.net }

  /** An id is listed twice in one bucket while fewer than three references have been read. */
  ghost predicate Repeated(lists: seq<seq<nat>>, m: Id)
  {
    exists b :: 0 <= b < |lists| && multiset(lists[b])[m] > 1 && Listings(lists[..b], m) < MAX_REFS - 1
  }

  ghost predicate ListedBelow(lists: seq<seq<nat>>, n: nat) { forall m | m in ListedIds(lists) :: m < n }

  ghost predicate NoOverflow(news: seq<set<Id>>) { forall b | 0 <= b < |news| :: |news[b]| <= NEW_SIZE }

  /** Every new entry is listed, and no bucket repeats one. */
  ghost predicate WellListed(d: Disk) { forall m: Id | m < d.nNew :: m in ListedIds(d.buckets) && !Repeated(d.buckets, m) }

  ghost predicate Sound(env: Env, d: Disk)
  {
    && DistinctNets(Entries(env, d)) && ListedBelow(d.buckets, if SameBuckets(d) then d.nNew else |Entries(env, d)|)
    && NoOverflow(NewsAfter(env, d, d.buckets)) && (SameBuckets(d) ==> WellListed(d))
  }

  /** The buckets that hold an id, as far as the lists go. */
  function Held(lists: seq<seq<nat>>, m: Id): set<nat> { set b | 0 <= b < |lists| && m in Below(lists[..b], lists[b]) }

  lemma HeldStep(lists: seq<seq<nat>>, m: Id)
    requires lists != []
    ensures var n := |lists| - 1;
            && Held(lists, m) == Held(lists[..n], m) + (if m in lists[n] && Listings(lists[..n], m) < MAX_REFS then {n} else {})
            && n !in Held(lists[..n], m)
            && (Repeated(lists, m) <==> Repeated(lists[..n], m) || (multiset(lists[n])[m] > 1 && Listings(lists[..n], m) < MAX_REFS - 1))
  {
    hide Listings;
    var n := |lists| - 1;
    assert forall b | 0 <= b < n :: lists[..n][..b] == lists[..b] && lists[..n][b] == lists[b];
  }

  /** An id's references are as many as its buckets, unless a bucket repeats it below the cap. */
  lemma {:induction false} HeldCount(lists: seq<seq<nat>>, m: Id)
    ensures |Held(lists, m)| <= Min(MAX_REFS, Listings(lists, m))
    ensures |Held(lists, m)| == Min(MAX_REFS, Listings(lists, m)) <==> !Repeated(lists, m)
  {
    if lists != [] {
      HeldStep(lists, m);
      HeldCount(lists[..|lists| - 1], m);
      hide Held, Repeated;
    }
  }

  lemma HoldersHeld(env: Env, d: Disk, m: Id)
    requires Readable(d) && SameBuckets(d)
    ensures Holders(NewsAfter(env, d, d.buckets), m) == Held(d.buckets, m)
  {
    hide Below;
  }

  lemma KnownKeys(d: Disk, v: seq<Info>, lists: seq<seq<nat>>)
    ensures InfoAfter(d, v, lists).Keys == Numbers(|v|) + ListedIds(lists)
    ensures ListedBelow(lists, |v|) ==> InfoAfter(d, v, lists).Keys == Numbers(|v|)
  {
    hide EntryAfter, ListedIds;
  }

  /** The entry of an id below the number of entries, and of any other. */
  lemma EntryIs(d: Disk, v: seq<Info>, lists: seq<seq<nat>>)
    ensures forall m: Id | m < |v| :: m in InfoAfter(d, v, lists) && Plain(d, v, lists, m, InfoAfter(d, v, lists)[m])
    ensures forall m: Id | m in InfoAfter(d, v, lists) && m >= |v| :: InfoAfter(d, v, lists)[m].randomPos == -1
  {
    hide RefsAfter, ListedIds;
  }

  ghost predicate Plain(d: Disk, v: seq<Info>, lists: seq<seq<nat>>, m: Id, i: Info)
    requires m < |v|
  {
    i.addr == v[m].addr && i.inTried == (m >= d.nNew) && i.refCount == RefsAfter(d, lists, m) && i.randomPos == m
  }

  lemma RandomIff(d: Disk, v: seq<Info>, lists: seq<seq<nat>>)
    ensures RandomOk(InfoAfter(d, v, lists), FirstIds(|v|)) <==> ListedBelow(lists, |v|)
  {
    EntryIs(d, v, lists);
    KnownKeys(d, v, lists);
    hide InfoAfter, RefsAfter, ListedIds, Numbers;
    if !ListedBelow(lists, |v|) {
      var m :| m in ListedIds(lists) && m >= |v|;
      assert m in InfoAfter(d, v, lists);
    }
  }

  lemma {:induction false} AddrIndexFacts(v: seq<Info>)
    ensures var a := AddrIndex(v);
            && (forall m | 0 <= m < |v| :: v[m].addr.net in a && m <= a[v[m].addr.net])
            && (forall n | n in a :: a[n] < |v| && v[a[n]].addr.net == n)
  {
    if v != [] {
      AddrIndexFacts(v[..|v| - 1]);
    }
  }

  lemma AddrIff(info: map<Id, Info>, v: seq<Info>)
    requires info.Keys == Numbers(|v|) && forall m: Id | m < |v| :: info[m].addr == v[m].addr
    ensures AddrOk(info, AddrIndex(v)) <==> DistinctNets(v)
  {
    var a := AddrIndex(v);
    AddrIndexFacts(v);
    hide AddrIndex, Numbers;
    if AddrOk(info, a) {
      forall i, j | 0 <= i < j < |v| ensures v[i].addr.net != v[j].addr.net
      {
        assert i in info && j in info;
        assert a[info[i].addr.net] == i && a[info[j].addr.net] == j;
      }
    }
    if DistinctNets(v) {
      forall m | m in info ensures info[m].addr.net in a && a[info[m].addr.net] == m
      {
        assert v[a[v[m].addr.net]].addr.net == v[m].addr.net;
      }
    }
  }

  lemma {:induction false} ColumnFacts(env: Env, base: nat, v: seq<Info>, k: nat)
    ensures Distinct(Column(env, base, v, k))
    ensures forall m: Id :: m in Column(env, base, v, k) <==> InColumn(env, base, v, k, m)
  {
    hide TriedBucket;
    if v != [] {
      var n := |v| - 1;
      ColumnFacts(env, base, v[..n], k);
      assert !InColumn(env, base, v[..n], k, base + n);
      forall m: Id ensures InColumn(env, base, v, k, m) <==>
        InColumn(env, base, v[..n], k, m) || (m == base + n && TriedBucket(env, v[n]) == k) {}
      hide InColumn;
    }
  }

  predicate InColumn(env: Env, base: nat, v: seq<Info>, k: nat, m: Id)
  {
    base <= m < base + |v| && TriedBucket(env, v[m - base]) == k
  }

  lemma {:induction false} KeptFits(env: Env, base: nat, v: seq<Info>, k: nat)
    ensures |Column(env, base, Kept(env, base, v), k)| <= TRIED_SIZE
  {
    hide TriedBucket;
    if v != [] {
      var n := |v| - 1;
      var r := Kept(env, base, v[..n]);
      KeptFits(env, base, v[..n], k);
      assert (r + [v[n]])[..|r|] == r;
    }
  }

  /** Tried buckets filled from entries `base..`: valid exactly when no tried entry has references. */
  lemma TriedIff(env: Env, base: nat, v: seq<Info>, kept: seq<Info>, info: map<Id, Info>)
    requires base <= |v| && v[base..] == kept && info.Keys == Numbers(|v|)
    requires forall m: Id | m < |v| :: info[m].addr == v[m].addr && info[m].inTried == (m >= base)
    requires forall k: nat :: |Column(env, base, kept, k)| <= TRIED_SIZE
    ensures TriedOk(env, info, Columns(env, base, kept)) <==> forall m: Id | m in info && info[m].inTried :: info[m].refCount == 0
  {
    var tried := Columns(env, base, kept);
    forall k: nat | k < TRIED_BUCKETS
      ensures Distinct(tried[k]) && |tried[k]| <= TRIED_SIZE
      ensures forall m: Id :: m in tried[k] <==> InColumn(env, base, kept, k, m)
    {
      ColumnFacts(env, base, kept, k);
    }
    forall m: Id, k: nat ensures InColumn(env, base, kept, k, m) <==> m in info && info[m].inTried && TriedBucket(env, info[m]) == k
    {
      if base <= m < |v| { assert kept[m - base] == v[m]; }
    }
    hide Columns, InColumn, Distinct, TriedBucket;
  }

  lemma {:induction false} NumbersSize(n: nat)
    ensures |Numbers(n)| == n
  {
    if n > 0 { NumbersSize(n - 1); }
  }

  lemma CountsHold(base: nat, v: seq<Info>, info: map<Id, Info>)
    requires info.Keys == Numbers(|v|) && base <= |v| && forall m: Id | m < |v| :: info[m].inTried == (m >= base)
    ensures CountsOk(info, base, |v| - base, |v|)
  {
    hide Numbers;
    var all, news := Numbers(|v|), Numbers(base);
    NumbersSize(base);
    NumbersSize(|v|);
    assert NewIds(info) == news;
    assert TriedIds(info) == all - news;
    hide NewIds, TriedIds;
    assert all == news + (all - news);
  }

  lemma BelowListed(env: Env, d: Disk, b: nat, m: Id)
    requires Readable(d) && SameBuckets(d) && b < NEW_BUCKETS && m in NewsAfter(env, d, d.buckets)[b]
    ensures m in ListedIds(d.buckets)
  {
    hide Listings, ListedIds;
    InList(d.buckets, b, m);
  }

  lemma {:induction false} InList(lists: seq<seq<nat>>, b: nat, m: Id)
    requires b < |lists| && m in lists[b]
    ensures m in ListedIds(lists)
  {
    if b < |lists| - 1 { InList(lists[..|lists| - 1], b, m); }
  }

  /** The reference law holds of a new entry exactly when it is well listed. */
  lemma RefsIff(env: Env, d: Disk, m: Id)
    requires Readable(d) && SameBuckets(d)
    ensures var refs := RefsAfter(d, d.buckets, m);
            refs == |Holders(NewsAfter(env, d, d.buckets), m)| && 1 <= refs <= MAX_REFS <==>
            m in ListedIds(d.buckets) && !Repeated(d.buckets, m)
  {
    HoldersHeld(env, d, m);
    HeldCount(d.buckets, m);
    NotListed(d.buckets, m);
    hide NewsAfter, ListedIds, Holders, Repeated, Held, Listings;
  }

  /** With the file's own buckets: valid when none overflows and every new entry is well listed. */
  lemma NewIffSame(env: Env, d: Disk, info: map<Id, Info>)
    requires Readable(d) && SameBuckets(d) && ListedBelow(d.buckets, d.nNew)
    requires forall m: Id :: m in info && !info[m].inTried <==> m < d.nNew
    requires forall m: Id | m < d.nNew :: info[m].refCount == RefsAfter(d, d.buckets, m)
    ensures NewOk(info, NewsAfter(env, d, d.buckets), NOBODY) <==> NoOverflow(NewsAfter(env, d, d.buckets)) && WellListed(d)
  {
    hide NewsAfter, ListedIds, Holders, Repeated, RefsAfter;
    var news := NewsAfter(env, d, d.buckets);
    forall b, m | 0 <= b < |news| && m in news[b] ensures m in info && !info[m].inTried
    {
      BelowListed(env, d, b, m);
    }
    forall m: Id | m < d.nNew
      ensures info[m].refCount == |Holders(news, m)| && 1 <= info[m].refCount <= MAX_REFS <==>
              m in ListedIds(d.buckets) && !Repeated(d.buckets, m)
    {
      RefsIff(env, d, m);
    }
  }

  lemma HomedHolders(env: Env, d: Disk, m: Id)
    requires Readable(d) && !SameBuckets(d) && m < d.nNew
    ensures Holders(NewsAfter(env, d, d.buckets), m) == {NewBucket(env, d.newInfos[m], d.newInfos[m].source)}
  {
    hide NewBucket;
  }

  /** With rebuilt buckets: valid when none overflows. */
  lemma NewIffRebuilt(env: Env, d: Disk, info: map<Id, Info>)
    requires Readable(d) && !SameBuckets(d)
    requires forall m: Id :: m in info && !info[m].inTried <==> m < d.nNew
    requires forall m: Id | m < d.nNew :: info[m].refCount == RefsAfter(d, d.buckets, m)
    ensures NewOk(info, NewsAfter(env, d, d.buckets), NOBODY) <==> NoOverflow(NewsAfter(env, d, d.buckets))
  {
    var news := NewsAfter(env, d, d.buckets);
    forall m: Id | m < d.nNew ensures |Holders(news, m)| == 1
    {
      HomedHolders(env, d, m);
    }
    assert forall b, m | 0 <= b < |news| && m in news[b] :: m < d.nNew;
    hide NewsAfter, Holders;
  }

  /** The tables loaded from a readable file are valid exactly when no two entries share an address, the lists name
      known entries (new ones, and all of them, none twice in a bucket, if the lists are used) and no new bucket
      holds more than 64. */
  lemma LoadsValidIff(env: Env, d: Disk)
    requires Readable(d)
    ensures Inv(env, Loaded(env, d), NOBODY) <==> Sound(env, d)
  {
    var v, t := Entries(env, d), Loaded(env, d);
    RandomIff(d, v, d.buckets);
    EntryIs(d, v, d.buckets);
    KnownKeys(d, v, d.buckets);
    hide InfoAfter, AddrIndex, Columns, Kept, NewsAfter, Numbers, RandomOk, AddrOk, NewOk, TriedOk, CountsOk, RefsAfter, ListedIds;
    if ListedBelow(d.buckets, |v|) {
      AddrIff(t.info, v);
      CountsHold(d.nNew, v, t.info);
      TriedLoaded(env, d);
      if SameBuckets(d) {
        if ListedBelow(d.buckets, d.nNew) { NewIffSame(env, d, t.info); }
      } else {
        NewIffRebuilt(env, d, t.info);
      }
    }
  }

  lemma TriedLoaded(env: Env, d: Disk)
    requires Readable(d) && ListedBelow(d.buckets, |Entries(env, d)|)
    ensures var t := Loaded(env, d);
            TriedOk(env, t.info, t.tried) <==> (SameBuckets(d) ==> ListedBelow(d.buckets, d.nNew))
  {
    var v, kept, t := Entries(env, d), Kept(env, d.nNew, d.triedInfos), Loaded(env, d);
    EntryIs(d, v, d.buckets);
    KnownKeys(d, v, d.buckets);
    forall m: Id ensures RefsAfter(d, d.buckets, m) == 0 <==> (if SameBuckets(d) then m !in ListedIds(d.buckets) else m >= d.nNew)
    {
      NotListed(d.buckets, m);
    }
    forall k: nat ensures |Column(env, d.nNew, kept, k)| <= TRIED_SIZE
    {
      KeptFits(env, d.nNew, d.triedInfos, k);
    }
    hide InfoAfter, AddrIndex, Columns, Column, Kept, NewsAfter, Numbers, TriedOk, RefsAfter, ListedIds;
    TriedIff(env, d.nNew, v, kept, t.info);
  }

  // ---- loading what was saved ----

  lemma {:induction false} AllKept(env: Env, base: nat, v: seq<Info>)
    requires forall k: nat | k < TRIED_BUCKETS :: |Column(env, base, v, k)| <= TRIED_SIZE
    ensures Kept(env, base, v) == v
  {
    hide TriedBucket;
    if v != [] {
      var n := |v| - 1;
      assert forall k: nat :: |Column(env, base, v[..n], k)| <= |Column(env, base, v, k)|;
      AllKept(env, base, v[..n]);
      assert v == v[..n] + [v[n]];
    }
  }

  /** A file written from valid tables. */
  ghost predicate SavedFrom(env: Env, s: Tables, order: seq<Id>, d: Disk)
  {
    && Readable(d) && SameBuckets(d) && Lists(s.info, s.nNew, s.nTried, order) && IsSaved(s, order, d)
    && AddrOk(s.info, s.addr) && NewOk(s.info, s.news, NOBODY) && TriedOk(env, s.info, s.tried)
  }

  lemma SavedReady(env: Env, s: Tables, d: Disk)
    requires Inv(env, s, NOBODY) && IsSaved(s, Order(s.info), d)
    ensures SavedFrom(env, s, Order(s.info), d)
  {
    hide Lists, AddrOk, TriedOk, RandomOk, CountsOk, Order, Elements;
    OrderLists(env, s);
  }

  /** Entry `m` of the file is entry `order[m]`. */
  lemma SavedEntry(env: Env, s: Tables, order: seq<Id>, d: Disk, m: Id)
    requires SavedFrom(env, s, order, d) && m < |order|
    ensures |order| == |d.newInfos + d.triedInfos| && order[m] in s.info && (s.info[order[m]].inTried <==> m >= d.nNew)
    ensures (d.newInfos + d.triedInfos)[m] == OnDisk(s.info[order[m]])
  {
    hide Elements, AddrOk, NewOk, TriedOk, Distinct, OnDisk;
  }

  lemma SavedColumn(env: Env, s: Tables, order: seq<Id>, d: Disk, k: nat)
    requires SavedFrom(env, s, order, d) && k < TRIED_BUCKETS
    ensures |s.tried| == TRIED_BUCKETS && Elements(Column(env, d.nNew, d.triedInfos, k), Positions(order, BucketSet(s.tried[k])))
  {
    ColumnFacts(env, d.nNew, d.triedInfos, k);
    forall m: Id ensures InColumn(env, d.nNew, d.triedInfos, k, m) <==> m in Positions(order, BucketSet(s.tried[k]))
    {
      InSavedColumn(env, s, order, d, k, m);
    }
    hide Lists, IsSaved, AddrOk, NewOk, Distinct, Column, InColumn, Positions, BucketSet;
  }

  lemma InSavedColumn(env: Env, s: Tables, order: seq<Id>, d: Disk, k: nat, m: Id)
    requires SavedFrom(env, s, order, d) && k < |s.tried|
    ensures InColumn(env, d.nNew, d.triedInfos, k, m) <==> m in Positions(order, BucketSet(s.tried[k]))
  {
    PositionsIn(order, BucketSet(s.tried[k]), m);
    SavedShape(env, s, order, d);
    hide SavedFrom, Lists, Positions, TriedBucket;
    if m < |order| { SavedHome(env, s, order, d, k, m); }
  }

  lemma SavedHome(env: Env, s: Tables, order: seq<Id>, d: Disk, k: nat, m: Id)
    requires SavedFrom(env, s, order, d) && k < |s.tried| && m < |order|
    ensures order[m] in s.tried[k] <==> InColumn(env, d.nNew, d.triedInfos, k, m)
  {
    hide *;
    SavedShape(env, s, order, d);
    SavedTried(env, s, order, d, m);
    var i := s.info[order[m]];
    AtHome(env, s.info, s.tried, order[m], k);
    ColumnHas(env, d.nNew, d.triedInfos, k, m, i);
  }

  lemma ColumnHas(env: Env, base: nat, v: seq<Info>, k: nat, m: Id, i: Info)
    requires m < base + |v| && (m >= base ==> v[m - base].addr == i.addr)
    ensures InColumn(env, base, v, k, m) <==> m >= base && TriedBucket(env, i) == k
  {}

  lemma SavedTried(env: Env, s: Tables, order: seq<Id>, d: Disk, m: Id)
    requires SavedFrom(env, s, order, d) && m < |order|
    ensures order[m] in s.info && (s.info[order[m]].inTried <==> m >= d.nNew) && |order| == d.nNew + |d.triedInfos|
    ensures m >= d.nNew ==> d.triedInfos[m - d.nNew].addr == s.info[order[m]].addr
  {
    SavedShape(env, s, order, d);
    hide SavedFrom, Lists, TriedOk;
    SavedEntry(env, s, order, d, m);
    if m >= d.nNew { assert d.triedInfos[m - d.nNew] == (d.newInfos + d.triedInfos)[m]; }
  }

  lemma AtHome(env: Env, info: map<Id, Info>, tried: seq<seq<Id>>, j: Id, k: nat)
    requires TriedOk(env, info, tried) && j in info && k < |tried|
    ensures j in tried[k] <==> info[j].inTried && TriedBucket(env, info[j]) == k
  {
    hide TriedBucket, Distinct;
  }

  /** There is always room in the tried buckets. */
  lemma NothingLost(env: Env, s: Tables, order: seq<Id>, d: Disk)
    requires SavedFrom(env, s, order, d)
    ensures Kept(env, d.nNew, d.triedInfos) == d.triedInfos && Entries(env, d) == d.newInfos + d.triedInfos
  {
    forall k: nat | k < TRIED_BUCKETS ensures |Column(env, d.nNew, d.triedInfos, k)| <= TRIED_SIZE
    {
      SavedColumn(env, s, order, d, k);
      ColumnSize(env, s, order, d, k);
    }
    hide SavedFrom, Column, Kept;
    AllKept(env, d.nNew, d.triedInfos);
  }

  lemma ColumnSize(env: Env, s: Tables, order: seq<Id>, d: Disk, k: nat)
    requires SavedFrom(env, s, order, d) && k < |s.tried|
    requires Elements(Column(env, d.nNew, d.triedInfos, k), Positions(order, BucketSet(s.tried[k])))
    ensures |Column(env, d.nNew, d.triedInfos, k)| <= TRIED_SIZE
  {
    hide Column, IsSaved, AddrOk, NewOk, TriedBucket;
    var was := BucketSet(s.tried[k]);
    SizeOfDistinct(Column(env, d.nNew, d.triedInfos, k), Positions(order, was));
    SizeOfDistinct(s.tried[k], was);
    PositionsSize(order, was);
  }

  lemma DistinctCount(v: seq<nat>, m: nat)
    requires Distinct(v)
    ensures multiset(v)[m] == if m in v then 1 else 0
  {
    if v != [] {
      var n := |v| - 1;
      assert v == v[..n] + [v[n]];
      assert v[n] !in v[..n];
      DistinctCount(v[..n], m);
    }
  }

  function Listing(lists: seq<seq<nat>>, m: Id): set<nat> { set b | 0 <= b < |lists| && m in lists[b] }

  /** Without repetitions, an id is listed once for each bucket that holds it. */
  lemma {:induction false} ListingsDistinct(lists: seq<seq<nat>>, m: Id)
    requires forall b | 0 <= b < |lists| :: Distinct(lists[b])
    ensures Listings(lists, m) == |Listing(lists, m)|
  {
    if lists != [] {
      var n := |lists| - 1;
      ListingsDistinct(lists[..n], m);
      DistinctCount(lists[n], m);
      assert Listing(lists, m) == Listing(lists[..n], m) + (if m in lists[n] then {n} else {});
    }
  }

  lemma {:induction false} ListingsBefore(lists: seq<seq<nat>>, b: nat, m: Id)
    requires b < |lists| && m in lists[b]
    ensures Listings(lists[..b], m) < Listings(lists, m)
  {
    var n := |lists| - 1;
    if b < n {
      ListingsBefore(lists[..n], b, m);
      assert lists[..n][..b] == lists[..b];
    }
  }

  lemma SavedList(env: Env, s: Tables, order: seq<Id>, d: Disk, b: nat)
    requires SavedFrom(env, s, order, d) && b < NEW_BUCKETS
    ensures |d.buckets| == |s.news| == NEW_BUCKETS && Distinct(d.buckets[b])
    ensures forall m: Id :: m in d.buckets[b] <==> m < |order| && order[m] in s.news[b]
  {
    hide Lists, AddrOk, TriedOk, Holders, Distinct;
  }

  /** Every saved reference is counted, and the cap of four cuts none off. */
  lemma SavedRefs(env: Env, s: Tables, order: seq<Id>, d: Disk, m: Id)
    requires SavedFrom(env, s, order, d) && m < |order|
    ensures order[m] in s.info && Listings(d.buckets, m) == s.info[order[m]].refCount <= MAX_REFS
  {
    SavedEntry(env, s, order, d, m);
    forall b: nat | b < NEW_BUCKETS
      ensures |d.buckets| == |s.news| == NEW_BUCKETS && Distinct(d.buckets[b]) && (m in d.buckets[b] <==> order[m] in s.news[b])
    {
      SavedList(env, s, order, d, b);
    }
    ListingsDistinct(d.buckets, m);
    assert Listing(d.buckets, m) == Holders(s.news, order[m]);
    hide Lists, IsSaved, AddrOk, Distinct, Holders, Listing, Listings;
    if s.info[order[m]].inTried { TriedNotListed(s.info, s.news, order[m]); }
  }

  lemma SavedBucket(env: Env, s: Tables, order: seq<Id>, d: Disk, b: nat)
    requires SavedFrom(env, s, order, d) && b < NEW_BUCKETS
    ensures |s.news| == NEW_BUCKETS && NewsAfter(env, d, d.buckets)[b] == Positions(order, s.news[b])
  {
    SavedList(env, s, order, d, b);
    forall m: Id ensures m in Below(d.buckets[..b], d.buckets[b]) <==> m in d.buckets[b]
    {
      if m in d.buckets[b] {
        ListingsBefore(d.buckets, b, m);
        SavedRefs(env, s, order, d, m);
      }
    }
    hide SavedFrom, Below;
  }

  lemma SavedKnown(env: Env, s: Tables, order: seq<Id>, d: Disk)
    requires SavedFrom(env, s, order, d)
    ensures ListedBelow(d.buckets, |order|)
  {
    forall m | m in ListedIds(d.buckets) ensures m < |order|
    {
      ListedSomewhere(d.buckets, m);
      var b: nat :| b < |d.buckets| && m in d.buckets[b];
      SavedList(env, s, order, d, b);
    }
  }

  lemma {:induction false} ListedSomewhere(lists: seq<seq<nat>>, m: Id)
    requires m in ListedIds(lists)
    ensures exists b: nat :: b < |lists| && m in lists[b]
  {
    var n := |lists| - 1;
    if m !in lists[n] {
      ListedSomewhere(lists[..n], m);
      var b: nat :| b < |lists[..n]| && m in lists[..n][b];
      assert m in lists[b];
    }
  }

  lemma SavedEntryIs(env: Env, s: Tables, order: seq<Id>, d: Disk, m: Id)
    requires SavedFrom(env, s, order, d) && m < |order|
    ensures order[m] in s.info && EntryAfter(d, d.newInfos + d.triedInfos, d.buckets, m) == Reloaded(s.info[order[m]], m)
  {
    SavedEntry(env, s, order, d, m);
    SavedRefs(env, s, order, d, m);
    hide Listings, Lists, IsSaved, AddrOk, NewOk, TriedOk;
  }

  /** An entry as loaded from what was saved of it. */
  function Reloaded(was: Info, m: Id): Info { OnDisk(was).(inTried := was.inTried, randomPos := m, refCount := was.refCount) }

  lemma SavedEntries(env: Env, s: Tables, order: seq<Id>, d: Disk, info: map<Id, Info>)
    requires SavedFrom(env, s, order, d) && info == InfoAfter(d, d.newInfos + d.triedInfos, d.buckets)
    ensures SameEntries(s.info, order, info, |order|)
    ensures forall m: Id | m < |order| :: m in info && order[m] in s.info && info[m].refCount == s.info[order[m]].refCount
  {
    hide *;
    SavedKeys(env, s, order, d);
    forall m: Id | m < |order| ensures m in info && order[m] in s.info && info[m] == Reloaded(s.info[order[m]], m)
    {
      SavedEntryIs(env, s, order, d, m);
    }
    AllReloaded(s.info, order, info);
  }

  lemma AllReloaded(info: map<Id, Info>, order: seq<Id>, c: map<Id, Info>)
    requires c.Keys == Numbers(|order|)
    requires forall m: Id | m < |order| :: m in c && order[m] in info && c[m] == Reloaded(info[order[m]], m)
    ensures SameEntries(info, order, c, |order|)
    ensures forall m: Id | m < |order| :: c[m].refCount == info[order[m]].refCount
  {
    hide Numbers;
  }

  lemma SavedKeys(env: Env, s: Tables, order: seq<Id>, d: Disk)
    requires SavedFrom(env, s, order, d)
    ensures var info := InfoAfter(d, d.newInfos + d.triedInfos, d.buckets);
            info.Keys == Numbers(|order|) && forall m: Id | m < |order| :: m in info && info[m] == EntryAfter(d, d.newInfos + d.triedInfos, d.buckets, m)
  {
    hide *;
    SavedKnown(env, s, order, d);
    SavedShape(env, s, order, d);
    AllEntries(d, d.newInfos + d.triedInfos, d.buckets);
  }

  lemma AllEntries(d: Disk, v: seq<Info>, lists: seq<seq<nat>>)
    requires ListedBelow(lists, |v|)
    ensures var info := InfoAfter(d, v, lists);
            info.Keys == Numbers(|v|) && forall m: Id | m < |v| :: m in info && info[m] == EntryAfter(d, v, lists, m)
  {
    hide EntryAfter, ListedIds, Numbers;
    KnownKeys(d, v, lists);
  }

  lemma SavedNets(env: Env, s: Tables, order: seq<Id>, d: Disk, v: seq<Info>)
    requires SavedFrom(env, s, order, d) && v == d.newInfos + d.triedInfos
    ensures SameAddresses(s.info, order, AddrIndex(v), |order|)
  {
    hide *;
    SavedShape(env, s, order, d);
    forall m: Id | m < |order| ensures order[m] in s.info && v[m].addr == s.info[order[m]].addr
    {
      SavedAddr(env, s, order, d, m);
    }
    forall i: Id, j: Id | i < |order| && j < |order| && v[i].addr.net == v[j].addr.net ensures i == j
    {
      SavedAddr(env, s, order, d, i);
      SavedAddr(env, s, order, d, j);
      SavedOnce(env, s, order, d, i, j);
    }
    IndexAgrees(s.info, order, v);
  }

  lemma IndexAgrees(info: map<Id, Info>, order: seq<Id>, v: seq<Info>)
    requires |v| == |order| && forall m: Id | m < |order| :: order[m] in info && v[m].addr == info[order[m]].addr
    requires forall i: Id, j: Id | i < |order| && j < |order| && v[i].addr.net == v[j].addr.net :: i == j
    ensures SameAddresses(info, order, AddrIndex(v), |order|)
  {
    AddrIndexFacts(v);
    hide AddrIndex;
    var a := AddrIndex(v);
    forall m: Id | m < |order| ensures a[v[m].addr.net] == m
    {
      assert v[a[v[m].addr.net]].addr.net == v[m].addr.net;
    }
  }

  lemma SavedAddr(env: Env, s: Tables, order: seq<Id>, d: Disk, m: Id)
    requires SavedFrom(env, s, order, d) && m < |order|
    ensures |order| == |d.newInfos + d.triedInfos| && order[m] in s.info && (d.newInfos + d.triedInfos)[m].addr == s.info[order[m]].addr
  {
    SavedEntry(env, s, order, d, m);
    hide SavedFrom;
  }

  lemma SavedOnce(env: Env, s: Tables, order: seq<Id>, d: Disk, i: Id, j: Id)
    requires SavedFrom(env, s, order, d) && i < |order| && j < |order| && order[i] in s.info && order[j] in s.info
    requires s.info[order[i]].addr.net == s.info[order[j]].addr.net
    ensures i == j
  {
    hide IsSaved, NewOk, TriedOk;
    SameNet(s.info, s.addr, order, i, j);
  }

  lemma SameNet(info: map<Id, Info>, addr: map<Net, Id>, order: seq<Id>, i: Id, j: Id)
    requires AddrOk(info, addr) && Distinct(order) && i < |order| && j < |order| && order[i] in info && order[j] in info
    requires info[order[i]].addr.net == info[order[j]].addr.net
    ensures i == j
  {
    assert order[i] == order[j];
  }

  lemma LoadedFields(env: Env, d: Disk)
    ensures var v, t := Entries(env, d), Loaded(env, d);
            && t.idCount == |v| == |t.random| && t.nNew == d.nNew && t.nTried == |Kept(env, d.nNew, d.triedInfos)|
            && t.info == InfoAfter(d, v, d.buckets) && t.addr == AddrIndex(v) && t.news == NewsAfter(env, d, d.buckets)
            && (forall m | 0 <= m < |v| :: t.random[m] == m) && |t.tried| == TRIED_BUCKETS && |t.news| == NEW_BUCKETS
            && (forall k: nat | k < TRIED_BUCKETS :: t.tried[k] == Column(env, d.nNew, Kept(env, d.nNew, d.triedInfos), k))
  {
    hide InfoAfter, AddrIndex, NewsAfter, Column, Kept;
  }

  /** A saved file loads into tables equal to those it was written from, up to renumbering. */
  lemma SavedLoads(env: Env, s: Tables, d: Disk)
    requires Inv(env, s, NOBODY) && IsSaved(s, Order(s.info), d)
    ensures Readable(d) && Loaded(env, d).nTried == d.nTried && Isomorphic(s, Order(s.info), Loaded(env, d))
  {
    SavedReady(env, s, d);
    hide Inv, IsSaved, Order, SavedFrom, Lists, SameEntries, SameAddresses, Loaded, InfoAfter, AddrIndex, Elements, Positions, Column, NewsAfter, Kept, BucketSet;
    var order, v, t := Order(s.info), d.newInfos + d.triedInfos, Loaded(env, d);
    SavedShape(env, s, order, d);
    LoadedFields(env, d);
    NothingLost(env, s, order, d);
    SavedEntries(env, s, order, d, t.info);
    SavedNets(env, s, order, d, v);
    forall b: nat | b < NEW_BUCKETS ensures |s.news| == NEW_BUCKETS && t.news[b] == Positions(order, s.news[b])
    {
      SavedBucket(env, s, order, d, b);
    }
    forall k: nat | k < TRIED_BUCKETS ensures |s.tried| == TRIED_BUCKETS && Elements(t.tried[k], Positions(order, BucketSet(s.tried[k])))
    {
      SavedColumn(env, s, order, d, k);
    }
  }

  lemma SavedShape(env: Env, s: Tables, order: seq<Id>, d: Disk)
    requires SavedFrom(env, s, order, d)
    ensures Lists(s.info, s.nNew, s.nTried, order) && d.nNew == s.nNew && d.nTried == s.nTried && |order| == |d.newInfos + d.triedInfos|
    ensures Readable(d) && TriedOk(env, s.info, s.tried)
  {
    hide Elements, AddrOk, NewOk, TriedOk;
  }

  /** Saving and loading loses nothing, whatever happened before. */
  method SaveThenLoad(env: Env, s: Tables) returns (t: Tables, lost: nat)
    requires Inv(env, s, NOBODY)
    ensures lost == 0 && Isomorphic(s, Order(s.info), t) && Inv(env, t, NOBODY)
  {
    hide Inv, IsSaved, Isomorphic, Order, Loaded;
    var d := Save(env, s);
    SavedLoads(env, s, d);
    t, lost := Load(env, d);
    IsoInv(env, s, Order(s.info), t);
  }

  // ---- loading after the number of buckets changed ----

  /** A saved file read by a node with another number of buckets: nothing is lost, but the result is valid exactly
      when no rebuilt bucket exceeds 64 entries. */
  lemma RebuiltIff(env: Env, s: Tables, saved: Disk, d: Disk)
    requires Inv(env, s, NOBODY) && IsSaved(s, Order(s.info), saved)
    requires d == saved.(nBuckets := d.nBuckets, buckets := d.buckets)
    requires Readable(d) && !SameBuckets(d) && ListedBelow(d.buckets, d.nNew)
    ensures Loaded(env, d).nTried == s.nTried
    ensures Inv(env, Loaded(env, d), NOBODY) <==> forall b: nat | b < NEW_BUCKETS :: |Homed(env, d.newInfos, b)| <= NEW_SIZE
  {
    SavedReady(env, s, saved);
    hide Inv, IsSaved, Order, SavedFrom, Lists, Loaded, Homed, Kept;
    var order := Order(s.info);
    SavedShape(env, s, order, saved);
    NothingLost(env, s, order, saved);
    DistinctSaved(env, s, order, saved);
    LoadedFields(env, d);
    LoadsValidIff(env, d);
    OverflowIff(env, d);
    hide NewsAfter, NoOverflow, InfoAfter, AddrIndex, Column;
  }

  lemma OverflowIff(env: Env, d: Disk)
    requires !SameBuckets(d)
    ensures NoOverflow(NewsAfter(env, d, d.buckets)) <==> forall b: nat | b < NEW_BUCKETS :: |Homed(env, d.newInfos, b)| <= NEW_SIZE
  {
    hide Homed;
    assert forall b: nat | b < NEW_BUCKETS :: NewsAfter(env, d, d.buckets)[b] == Homed(env, d.newInfos, b);
    hide NewsAfter;
  }

  lemma DistinctSaved(env: Env, s: Tables, order: seq<Id>, d: Disk)
    requires SavedFrom(env, s, order, d)
    ensures DistinctNets(d.newInfos + d.triedInfos)
  {
    SavedShape(env, s, order, d);
    hide SavedFrom, Lists;
    var v := d.newInfos + d.triedInfos;
    forall i, j | 0 <= i < j < |v| ensures v[i].addr.net != v[j].addr.net
    {
      SavedAddr(env, s, order, d, i);
      SavedAddr(env, s, order, d, j);
      if v[i].addr.net == v[j].addr.net { SavedOnce(env, s, order, d, i, j); }
    }
  }

  /** 65 new entries with different addresses, saved without buckets. */
  function Crowd(): (d: Disk)
    ensures Readable(d) && !SameBuckets(d) && d.nNew == 65 && d.triedInfos == [] && d.buckets == []
    ensures DistinctNets(d.newInfos)
  {
    Disk(65, 0, 0, seq(65, i requires 0 <= i < 65 => BLANK.(addr := Service(i, 0))), [], [])
  }

  /** Rebuilding overflows a bucket if the key sends all 65 entries to one. */
  lemma RebuildOverflows(env: Env)
    requires forall a, src :: env.newHash(a, src) == 0
    ensures !Inv(env, Loaded(env, Crowd()), NOBODY)
  {
    hide Loaded, Inv, Crowd;
    var d := Crowd();
    LoadsValidIff(env, d);
    OverflowIff(env, d);
    assert Homed(env, d.newInfos, 0) == Numbers(65);
    NumbersSize(65);
    hide NoOverflow, NewsAfter, Numbers;
  }
}
