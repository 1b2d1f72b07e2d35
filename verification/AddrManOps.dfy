/** The address manager object: its operations in the order the program performs them, each proved
    to compute the tables it should and to keep the invariant. */
module AddrManOps {
  import opened Basics
  import opened AddrMan
  import opened AddrManInv

  // ---- walking a new bucket in ascending order ----

  ghost predicate IsSmallest(s: set<Id>, m: Id) { m in s && forall y | y in s :: m <= y }

  lemma SmallestExists(s: set<Id>)
    requires s != {}
    ensures exists m :: IsSmallest(s, m)
  {
    var x :| x in s;
    if !IsSmallest(s, x) {
      var z :| z in s && z < x;
      assert z in s - {x};
      SmallestExists(s - {x});
      var m :| IsSmallest(s - {x}, m);
      assert m <= z && m in s;
      forall y | y in s ensures m <= y { assert y == x || y in s - {x}; }
      assert IsSmallest(s, m);
    }
  }

  function Smallest(s: set<Id>): (m: Id)
    requires s != {}
    ensures m in s && forall y | y in s :: m <= y
  {
    SmallestExists(s);
    assert exists m :: IsSmallest(s, m) && m in s && forall y | y in s :: m <= y;
    var m :| m in s && forall y | y in s :: m <= y;
    m
  }

  /** The order in which a `std::set` is iterated. */
  function Ascending(s: set<Id>): (v: seq<Id>)
    ensures |v| == |s| && (forall j :: j in v <==> j in s)
    ensures forall i, j | 0 <= i < j < |v| :: v[i] < v[j]
  {
    if s == {} then []
    else
      var m := Smallest(s);
      var rest := Ascending(s - {m});
      AscendingCons(s, m, rest);
      [m] + rest
  }

  lemma AscendingCons(s: set<Id>, m: Id, rest: seq<Id>)
    requires m in s && (forall y | y in s :: m <= y) && |rest| == |s - {m}| && (forall j :: j in rest <==> j in s - {m})
    requires forall i, j | 0 <= i < j < |rest| :: rest[i] < rest[j]
    ensures var v := [m] + rest;
            |v| == |s| && (forall j :: j in v <==> j in s) && (forall i, j | 0 <= i < j < |v| :: v[i] < v[j])
  {
    var v := [m] + rest;
    forall i, j | 0 <= i < j < |v| ensures v[i] < v[j]
    {
      assert v[j] == rest[j - 1] && rest[j - 1] in rest;
    }
  }

  /** A position is one of the four drawn. */
  predicate Drawn(n: seq<nat>, size: nat, p: nat)
    requires |n| == 4 && size > 0
  {
    p == n[0] % size || p == n[1] % size || p == n[2] % size || p == n[3] % size
  }

  /** Which entry `ShrinkNew` removes: the first terrible one if there is any (code 0); otherwise the
      least recently seen among the drawn positions, the first of them on a tie (code 1). */
  ghost predicate Chosen(info: map<Id, Info>, bucket: set<Id>, now: int, n: seq<nat>, code: int, v: Id)
  {
    && v in bucket && v in info && bucket <= info.Keys && |n| == 4
    && (if code == 0 then IsTerrible(info[v], now) && forall y | y in bucket && y < v :: !IsTerrible(info[y], now)
        else
          && code == 1 && (forall y | y in bucket :: !IsTerrible(info[y], now))
          && var order := Ascending(bucket);
             exists p: nat :: p < |order| && order[p] == v && Drawn(n, |order|, p) &&
               forall q: nat | q < |order| && Drawn(n, |order|, q) ::
                 info[v].time <= info[order[q]].time && (q < p ==> info[v].time < info[order[q]].time))
  }

  method FindTerrible(info: map<Id, Info>, bucket: set<Id>, now: int) returns (found: bool, v: Id)
    requires bucket <= info.Keys
    ensures found ==> v in bucket && IsTerrible(info[v], now) && forall y | y in bucket && y < v :: !IsTerrible(info[y], now)
    ensures !found ==> forall y | y in bucket :: !IsTerrible(info[y], now)
  {
    var order := Ascending(bucket);
    var k: nat := 0;
    while k < |order|
      invariant k <= |order|
      invariant forall q | 0 <= q < k :: !IsTerrible(info[order[q]], now)
    {
      assert order[k] in bucket;
      if IsTerrible(info[order[k]], now) {
        forall y | y in bucket && y < order[k] ensures !IsTerrible(info[y], now)
        {
          assert y in order;
        }
        return true, order[k];
      }
      k := k + 1;
    }
    forall y | y in bucket ensures !IsTerrible(info[y], now) { assert y in order; }
    return false, 0;
  }

  lemma SomeDrawn(n: seq<nat>, size: nat)
    requires |n| == 4 && size > 0
    ensures exists p: nat :: p < size && Drawn(n, size, p)
  {
    assert n[0] % size < size && Drawn(n, size, n[0] % size);
  }

  method OldestDrawn(info: map<Id, Info>, bucket: set<Id>, n: seq<nat>) returns (p: nat)
    requires bucket <= info.Keys && bucket != {} && |n| == 4
    ensures var order := Ascending(bucket);
            && p < |order| && Drawn(n, |order|, p)
            && forall q: nat | q < |order| && Drawn(n, |order|, q) ::
                 info[order[p]].time <= info[order[q]].time && (q < p ==> info[order[p]].time < info[order[q]].time)
  {
    hide Ascending, Drawn;
    var order := Ascending(bucket);
    assert |order| > 0;
    forall q | 0 <= q < |order| ensures order[q] in info { assert order[q] in order; }
    var oldest: int := -1;
    var k: nat := 0;
    SomeDrawn(n, |order|);
    while k < |order|
      invariant k <= |order| && -1 <= oldest < k
      invariant oldest == -1 ==> forall q: nat | q < k :: !Drawn(n, |order|, q)
      invariant oldest != -1 ==> Drawn(n, |order|, oldest)
      invariant oldest != -1 ==> forall q: nat | q < k && Drawn(n, |order|, q) ::
        info[order[oldest]].time <= info[order[q]].time && (q < oldest ==> info[order[oldest]].time < info[order[q]].time)
    {
      if Drawn(n, |order|, k) {
        if oldest == -1 || info[order[k]].time < info[order[oldest]].time {
          oldest := k;
        }
      }
      k := k + 1;
    }
    p := oldest;
  }

  /** The two searches of `ShrinkNew`. */
  method PickVictim(info: map<Id, Info>, bucket: set<Id>, now: int, n: seq<nat>) returns (code: int, v: Id)
    requires bucket <= info.Keys && bucket != {} && |n| == 4
    ensures Chosen(info, bucket, now, n, code, v)
  {
    hide Drawn, IsTerrible;
    var found;
    found, v := FindTerrible(info, bucket, now);
    if found { return 0, v; }
    var p := OldestDrawn(info, bucket, n);
    var order := Ascending(bucket);
    assert order[p] in order;
    return 1, order[p];
  }

  // ---- choosing a tried entry to replace ----

  datatype Inspection = Inspection(v: seq<Id>, oldest: int, pos: int)

  /** A permutation, for sequences without repetitions. */
  ghost predicate Shuffle(v: seq<Id>, w: seq<Id>)
  {
    |v| == |w| && (forall j :: j in v <==> j in w) && (Distinct(v) ==> Distinct(w))
  }

  lemma ShuffleTrans(u: seq<Id>, v: seq<Id>, w: seq<Id>)
    requires Shuffle(u, v) && Shuffle(v, w)
    ensures Shuffle(u, w)
  {}

  lemma ShuffleIn(v: seq<Id>, w: seq<Id>, j: Id)
    requires Shuffle(v, w)
    ensures |v| == |w| && (j in v <==> j in w)
  {}

  lemma SwapShuffles(v: seq<Id>, p: nat, q: nat)
    requires p < |v| && q < |v|
    ensures Shuffle(v, v[p := v[q]][q := v[p]])
  {
    if Distinct(v) { SwapDistinct(v, p, q); }
    var w := v[p := v[q]][q := v[p]];
    forall j | j in v ensures j in w
    {
      var r :| 0 <= r < |v| && v[r] == j;
      assert w[if r == p then q else if r == q then p else r] == j;
    }
  }

  /** A position drawn from `i` on. */
  function DrawFrom(draw: nat, size: nat, i: nat): (p: nat)
    requires i < size
    ensures i <= p < size
  {
    draw % (size - i) + i
  }

  predicate InspectionOk(info: map<Id, Info>, r: Inspection)
  {
    (forall j | j in r.v :: j in info) && (r.oldest == -1 || (0 <= r.oldest && r.oldest in r.v))
  }

  /** Swap a drawn entry to place `i`; keep the drawn position if the entry is the least recently
      successful so far. */
  function InspectStep(info: map<Id, Info>, r: Inspection, i: nat, draw: nat): (t: Inspection)
    requires InspectionOk(info, r) && i < |r.v|
  {
    var p := DrawFrom(draw, |r.v|, i);
    var drawn := r.v[p];
    var w: seq<Id> := r.v[p := r.v[i]][i := drawn];
    assert drawn in r.v;
    if r.oldest == -1 || info[drawn].lastSuccess < info[r.oldest].lastSuccess then Inspection(w, drawn, p)
    else Inspection(w, r.oldest, r.pos)
  }

  lemma StepShuffles(info: map<Id, Info>, r: Inspection, i: nat, draw: nat)
    requires InspectionOk(info, r) && i < |r.v|
    ensures var t := InspectStep(info, r, i, draw);
            && Shuffle(r.v, t.v) && InspectionOk(info, t) && t.oldest != -1
            && ((t.pos == r.pos && r.oldest != -1) || 0 <= t.pos < |t.v|)
  {
    var p := DrawFrom(draw, |r.v|, i);
    SwapShuffles(r.v, p, i);
    assert r.v[p] in r.v;
    hide Distinct;
  }

  /** The state of `SelectTried` after `n` inspections. */
  function Inspect(info: map<Id, Info>, v: seq<Id>, rnd: seq<nat>, n: nat): (r: Inspection)
    requires n <= |v| && n <= |rnd| && forall j | j in v :: j in info
    ensures Shuffle(v, r.v) && InspectionOk(info, r) && |r.v| == |v|
    ensures if n == 0 then r.oldest == -1 else r.oldest != -1 && 0 <= r.pos < |v|
  {
    if n == 0 then Inspection(v, -1, -1)
    else
      var r := Inspect(info, v, rnd, n - 1);
      var t := InspectStep(info, r, n - 1, rnd[n - 1]);
      StepKeeps(info, v, r, n - 1, rnd[n - 1]);
      t
  }

  lemma StepKeeps(info: map<Id, Info>, v: seq<Id>, r: Inspection, i: nat, draw: nat)
    requires Shuffle(v, r.v) && InspectionOk(info, r) && i < |r.v| == |v|
    requires r.oldest != -1 ==> 0 <= r.pos < |v|
    ensures var t := InspectStep(info, r, i, draw);
            Shuffle(v, t.v) && |t.v| == |v| && InspectionOk(info, t) && t.oldest != -1 && 0 <= t.pos < |v|
  {
    hide Shuffle, InspectStep, InspectionOk;
    StepShuffles(info, r, i, draw);
    ShuffleTrans(v, r.v, InspectStep(info, r, i, draw).v);
    ShuffleIn(v, InspectStep(info, r, i, draw).v, 0);
  }

  lemma InspectNone(info: map<Id, Info>, v: seq<Id>, rnd: seq<nat>)
    requires forall j | j in v :: j in info
    ensures Inspect(info, v, rnd, 0) == Inspection(v, -1, -1)
  {}

  lemma InspectNext(info: map<Id, Info>, v: seq<Id>, rnd: seq<nat>, n: nat)
    requires n < |v| && n < |rnd| && forall j | j in v :: j in info
    ensures Inspect(info, v, rnd, n + 1) == InspectStep(info, Inspect(info, v, rnd, n), n, rnd[n])
  {
    hide Shuffle;
  }

  lemma KnownEntries(info: map<Id, Info>, r: Inspection)
    requires InspectionOk(info, r)
    ensures (forall j | j in r.v :: j in info) && (r.oldest == -1 || (0 <= r.oldest && r.oldest in info))
  {}

  /** The loop of `SelectTried`, on the bucket's vector. */
  method InspectBucket(info: map<Id, Info>, bucket: seq<Id>, rnd: seq<nat>) returns (v: seq<Id>, pos: int)
    requires |rnd| >= INSPECT && forall j | j in bucket :: j in info
    ensures var n := if |bucket| < INSPECT then |bucket| else INSPECT;
            var r := Inspect(info, bucket, rnd, n);
            v == r.v && pos == r.pos
  {
    hide Shuffle, Inspect, InspectionOk, Distinct, DrawFrom;
    InspectNone(info, bucket, rnd);
    v := bucket;
    var oldest: int := -1;
    pos := -1;
    var i: nat := 0;
    while i < INSPECT && i < |v|
      invariant |v| == |bucket| && i <= INSPECT && i <= |v|
      invariant Inspection(v, oldest, pos) == Inspect(info, bucket, rnd, i)
    {
      ghost var r := Inspect(info, bucket, rnd, i);
      KnownEntries(info, r);
      var p := DrawFrom(rnd[i], |v|, i);
      var temp := v[p];
      assert temp in v;
      v := v[p := v[i]][i := temp];
      if oldest == -1 || info[temp].lastSuccess < info[oldest].lastSuccess {
        oldest := temp;
        pos := p;
      }
      assert Inspection(v, oldest, pos) == InspectStep(info, r, i, rnd[i]);
      InspectNext(info, bucket, rnd, i);
      i := i + 1;
    }
  }

  // ---- the operations as relations between tables ----

  /** An address announcement. */
  datatype Address = Address(addr: Service, services: bv64, time: int)

  function Max0(x: int): int { if x < 0 then 0 else x }

  function Fresh(a: Address, source: Net, penalty: int): Info
  {
    Info(a.addr, a.services, Max0(a.time - penalty), 0, source, 0, 0, 0, false, -1)
  }

  /** An announcement refreshes the time stamp now and then, and adds services. */
  function Refreshed(i: Info, a: Address, penalty: int, now: int): Info
  {
    var interval := if now - a.time < 86400 then 3600 else 86400;
    var time := if a.time != 0 && (i.time == 0 || i.time < a.time - interval - penalty) then Max0(a.time - penalty) else i.time;
    i.(time := time, services := i.services | a.services)
  }

  /** Whether a known entry may get one more reference. */
  predicate Listable(i: Info, a: Address, rnd: nat)
  {
    && a.time != 0 && (i.time == 0 || a.time > i.time)
    && !i.inTried && i.refCount != MAX_REFS
    && var factor := Pow2(Max(i.refCount, 0)); (factor > 1 ==> rnd % factor == 0)
  }

  /** Give entry `id` one more reference, in bucket `b`. */
  ghost predicate Listed(s: Tables, b: nat, id: Id, now: int, n: seq<nat>, t: Tables)
    requires b < |s.news| && id in s.info
  {
    if id in s.news[b] then t == s
    else
      var u := SetInfo(s, id, s.info[id].(refCount := s.info[id].refCount + 1));
      if |s.news[b]| == NEW_SIZE then
        exists v, code :: Chosen(u.info, u.news[b], now, n, code, v) && CanDrop(u, b, v) && b < |Dropped(u, b, v).news|
                          && t == InsertNew(Dropped(u, b, v), b, id)
      else t == InsertNew(u, b, id)
  }

  /** Listing keeps the invariant, although an entry is evicted while the reference is only counted. */
  lemma ListedInv(env: Env, s: Tables, b: nat, id: Id, now: int, n: seq<nat>, t: Tables)
    requires b < |s.news| && id in s.info && Listed(s, b, id, now, n, t) && |s.news[b]| <= NEW_SIZE && !s.info[id].inTried
    requires id in s.news[b] ==> Inv(env, s, NOBODY)
    requires id !in s.news[b] ==> Inv(env, SetInfo(s, id, s.info[id].(refCount := s.info[id].refCount + 1)), id)
    ensures Inv(env, t, NOBODY)
  {
    hide Inv, Chosen, OthersKept, Dropped, CanDrop;
    if id !in s.news[b] {
      var u := SetInfo(s, id, s.info[id].(refCount := s.info[id].refCount + 1));
      if |s.news[b]| == NEW_SIZE {
        var v, code :| Chosen(u.info, u.news[b], now, n, code, v) && CanDrop(u, b, v) && b < |Dropped(u, b, v).news|
                       && t == InsertNew(Dropped(u, b, v), b, id);
        ChosenIn(u.info, u.news[b], now, n, code, v);
        DropInv(env, u, b, v, id);
        KeptEntry(u.info, Dropped(u, b, v).info, v, id);
        InsertInv(env, Dropped(u, b, v), b, id);
      } else {
        InsertInv(env, u, b, id);
      }
    }
  }

  /** Entries are deleted only from the new table: listing keeps every tried entry as it was. */
  lemma TriedNeverDeleted(env: Env, s: Tables, b: nat, id: Id, now: int, n: seq<nat>, t: Tables, j: Id)
    requires b < |s.news| && id in s.info && Listed(s, b, id, now, n, t) && !s.info[id].inTried
    requires id !in s.news[b] ==> Inv(env, SetInfo(s, id, s.info[id].(refCount := s.info[id].refCount + 1)), id)
    requires j in s.info && s.info[j].inTried
    ensures j in t.info && t.info[j] == s.info[j].(randomPos := t.info[j].randomPos)
  {
    hide Inv, Chosen, Dropped, CanDrop;
    if id !in s.news[b] && |s.news[b]| == NEW_SIZE {
      var u := SetInfo(s, id, s.info[id].(refCount := s.info[id].refCount + 1));
      var v, code :| Chosen(u.info, u.news[b], now, n, code, v) && CanDrop(u, b, v) && b < |Dropped(u, b, v).news|
                     && t == InsertNew(Dropped(u, b, v), b, id);
      ChosenIn(u.info, u.news[b], now, n, code, v);
      DropInv(env, u, b, v, id);
      ListedIsNew(env, u, b, v, id);
    }
  }

  lemma ListedIsNew(env: Env, s: Tables, b: nat, v: Id, x: int)
    requires Inv(env, s, x) && b < |s.news| && v in s.news[b]
    ensures v in s.info && !s.info[v].inTried
  {}

  /** Promotion deletes nothing: a replaced entry goes back to the new table. */
  lemma PromotionKeepsEntries(env: Env, s: Tables, id: Id, origin: nat, rnd: seq<nat>)
    requires CanMakeTried(env, s, id, origin, rnd)
    ensures MadeTried(env, s, id, origin, rnd).info.Keys == s.info.Keys
    ensures var t := MadeTried(env, s, id, origin, rnd); id in t.info && t.info[id].inTried
  {
    hide TriedBucket, Inspect, Shuffle, Refuge;
    var k := TriedBucket(env, s.info[id]);
    if |s.tried[k]| >= TRIED_SIZE {
      var r := Inspect(s.info, s.tried[k], rnd, INSPECT);
      assert r.v[r.pos] in r.v;
    }
  }

  lemma ChosenIn(info: map<Id, Info>, bucket: set<Id>, now: int, n: seq<nat>, code: int, v: Id)
    requires Chosen(info, bucket, now, n, code, v)
    ensures v in bucket && v in info
  {}

  lemma KeptEntry(a: map<Id, Info>, b: map<Id, Info>, v: Id, id: Id)
    requires OthersKept(a, b, v) && id in a && id != v
    ensures id in b && b[id].inTried == a[id].inTried
  {}

  /** Where the entry evicted from the tried table goes: its own new bucket if that has room, otherwise
      the bucket the promoted entry came from. */
  function Refuge(env: Env, news: seq<set<Id>>, out: Info, origin: nat): (u: nat)
    requires |news| == NEW_BUCKETS && origin < NEW_BUCKETS
    ensures u < NEW_BUCKETS && (|news[origin]| < NEW_SIZE ==> |news[u]| < NEW_SIZE)
  {
    var own := NewBucket(env, out, out.source);
    if |news[own]| < NEW_SIZE then own else origin
  }

  ghost predicate CanMakeTried(env: Env, s: Tables, id: Id, origin: nat, rnd: seq<nat>)
  {
    && id in s.info && |s.news| == NEW_BUCKETS && |s.tried| == TRIED_BUCKETS && origin < NEW_BUCKETS && |rnd| >= INSPECT
    && (forall b, j | 0 <= b < |s.tried| && j in s.tried[b] :: j in s.info && j != id)
  }

  /** `MakeTried` as a function of the tables. */
  ghost function MadeTried(env: Env, s: Tables, id: Id, origin: nat, rnd: seq<nat>): Tables
    requires CanMakeTried(env, s, id, origin, rnd)
  {
    var u := Unlisted(s, id);
    var k := TriedBucket(env, s.info[id]);
    if |s.tried[k]| < TRIED_SIZE then Promoted(u, k, id)
    else
      var r := Inspect(s.info, s.tried[k], rnd, INSPECT);
      var w := u.(tried := u.tried[k := r.v]);
      assert r.v[r.pos] in r.v;
      Replaced(w, k, r.pos, id, Refuge(env, u.news, s.info[r.v[r.pos]], origin))
  }

  lemma MakeTriedReady(env: Env, s: Tables, id: Id, origin: nat, rnd: seq<nat>)
    requires Inv(env, s, NOBODY) && id in s.info && !s.info[id].inTried && origin < NEW_BUCKETS && |rnd| >= INSPECT
    ensures CanMakeTried(env, s, id, origin, rnd)
    ensures forall b | 0 <= b < |s.tried| :: |s.tried[b]| <= TRIED_SIZE && Distinct(s.tried[b])
    ensures forall b | 0 <= b < |s.news| :: |s.news[b]| <= NEW_SIZE
  {
    hide RandomOk, AddrOk, CountsOk, TriedBucket, Distinct;
  }

  /** Promotion keeps the invariant, with or without an eviction. */
  lemma MadeTriedInv(env: Env, s: Tables, id: Id, origin: nat, rnd: seq<nat>)
    requires Inv(env, s, NOBODY) && id in s.info && !s.info[id].inTried && origin < NEW_BUCKETS && |rnd| >= INSPECT
    requires origin < |s.news| && id in s.news[origin]
    ensures CanMakeTried(env, s, id, origin, rnd) && Inv(env, MadeTried(env, s, id, origin, rnd), NOBODY)
  {
    hide Inv, TriedBucket, NewBucket, Inspect, Promoted, Replaced, Shuffle, Distinct;
    MakeTriedReady(env, s, id, origin, rnd);
    var k := TriedBucket(env, s.info[id]);
    var u := Unlisted(s, id);
    if |s.tried[k]| < TRIED_SIZE {
      PromoteInv(env, s, id);
    } else {
      var r := Inspect(s.info, s.tried[k], rnd, INSPECT);
      var t := s.(tried := s.tried[k := r.v]);
      ShuffleInv(env, s, k, r.v);
      ShuffleIn(s.tried[k], r.v, r.v[r.pos]);
      var home := Refuge(env, u.news, s.info[r.v[r.pos]], origin);
      assert |u.news[origin]| == |s.news[origin] - {id}| < NEW_SIZE;
      assert u.news[home] == s.news[home] - {id};
      ReplaceInv(env, t, r.pos, id, home);
      assert u.(tried := u.tried[k := r.v]) == Unlisted(t, id);
    }
  }

  lemma ShuffleInv(env: Env, s: Tables, k: nat, v: seq<Id>)
    requires Inv(env, s, NOBODY) && k < |s.tried| && Shuffle(s.tried[k], v) && Distinct(s.tried[k])
    ensures Inv(env, s.(tried := s.tried[k := v]), NOBODY)
  {
    hide RandomOk, AddrOk, NewOk, TriedOk, CountsOk, Distinct;
    ShuffleTried(env, s.info, s.tried, k, v);
  }

  lemma NewEntryHeld(env: Env, s: Tables, id: Id)
    requires Inv(env, s, NOBODY) && id in s.info && !s.info[id].inTried
    ensures exists b :: 0 <= b < |s.news| && id in s.news[b]
  {
    if Holders(s.news, id) == {} { assert false; }
    var b :| b in Holders(s.news, id);
  }

  lemma SwapSame(s: Tables, p: nat, q: nat)
    requires CanSwap(s, p, q)
    ensures |Swapped(s, p, q).random| == |s.random| && (p == q ==> Swapped(s, p, q) == s)
  {}

  class Manager {
    const env: Env
    var idCount: nat
    var info: map<Id, Info>
    var addr: map<Net, Id>
    var random: seq<Id>
    var nTried: int
    var tried: seq<seq<Id>>
    var nNew: int
    var news: seq<set<Id>>

    function S(): Tables reads this { Tables(idCount, info, addr, random, nTried, tried, nNew, news) }

    ghost predicate Valid() reads this { Inv(env, S(), NOBODY) }

    constructor (env: Env)
      ensures Valid() && this.env == env && S() == EmptyTables()
    {
      this.env := env;
      idCount, info, addr, random := 0, map[], map[], [];
      nTried, tried := 0, seq(TRIED_BUCKETS, _ => []);
      nNew, news := 0, seq(NEW_BUCKETS, _ => {});
    }

    method Find(net: Net) returns (found: bool, id: Id)
      requires Valid()
      ensures found == (exists j :: j in info && info[j].addr.net == net)
      ensures found ==> id in info && info[id].addr.net == net && net in addr && addr[net] == id
      ensures !found ==> net !in addr
    {
      if net !in addr { return false, 0; }
      id := addr[net];
      found := id in info;
    }

    method SwapRandom(p: nat, q: nat)
      requires p == q || CanSwap(S(), p, q)
      modifies this`info, this`random
      ensures S() == if p == q then old(S()) else Swapped(old(S()), p, q)
    {
      if p == q { return; }
      var a, b := random[p], random[q];
      info := info[a := info[a].(randomPos := q)];
      info := info[b := info[b].(randomPos := p)];
      random := random[p := b][q := a];
    }

    method Create(a: Address, source: Net) returns (id: Id)
      modifies this`idCount, this`info, this`addr, this`random
      ensures id == old(idCount)
      ensures S() == Created(old(S()), Fresh(a, source, 0).(time := a.time)).(nNew := old(nNew))
    {
      id := idCount;
      idCount := idCount + 1;
      info := info[id := Info(a.addr, a.services, a.time, 0, source, 0, 0, 0, false, -1)];
      addr := addr[a.addr.net := id];
      info := info[id := info[id].(randomPos := |random|)];
      random := random + [id];
    }

    /** Delete an entry from every index. */
    method Erase(v: Id)
      requires v in info && 0 <= info[v].randomPos && |random| > 0 && CanSwap(S(), info[v].randomPos, |random| - 1)
      modifies this`info, this`addr, this`random, this`nNew
      ensures S() == Erased(old(S()), v)
    {
      hide Swapped;
      var net := info[v].addr.net;
      SwapRandom(info[v].randomPos, |random| - 1);
      SwapSame(old(S()), old(info[v].randomPos), |old(random)| - 1);
      random := random[..|random| - 1];
      addr := addr - {net};
      info := info - {v};
      nNew := nNew - 1;
    }

    /** Drop one reference to `v` from bucket `b`, and the entry itself with its last reference. */
    method Evict(b: nat, v: Id)
      requires CanDrop(S(), b, v)
      modifies this`info, this`addr, this`random, this`nNew, this`news
      ensures S() == Dropped(old(S()), b, v)
    {
      hide Erased;
      info := info[v := info[v].(refCount := info[v].refCount - 1)];
      if info[v].refCount == 0 { Erase(v); }
      news := news[b := news[b] - {v}];
    }

    method ShrinkNew(b: nat, now: int, n: seq<nat>, ghost x: int) returns (code: int)
      requires Inv(env, S(), x) && b < |news| && x !in news[b] && news[b] != {} && |n| == 4
      modifies this`info, this`addr, this`random, this`nNew, this`news
      ensures Inv(env, S(), x)
      ensures exists v :: Chosen(old(info), old(news[b]), now, n, code, v) && CanDrop(old(S()), b, v) && S() == Dropped(old(S()), b, v)
    {
      assert NewOk(info, news, x);
      hide Inv, NewOk, Chosen, Dropped, CanDrop, OthersKept;
      BucketKnown(info, news, x, b);
      var v: Id;
      code, v := PickVictim(info, news[b], now, n);
      ChosenIn(info, news[b], now, n, code, v);
      DropInv(env, S(), b, v, x);
      Evict(b, v);
    }

    method SelectTried(k: nat, rnd: seq<nat>) returns (pos: int)
      requires k < |tried| && |rnd| >= INSPECT && forall j | j in tried[k] :: j in info
      modifies this`tried
      ensures var v := old(tried[k]);
              var n := if |v| < INSPECT then |v| else INSPECT;
              var r := Inspect(info, v, rnd, n);
              tried == old(tried)[k := r.v] && pos == r.pos
    {
      hide Inspect, Shuffle, InspectionOk;
      var v;
      v, pos := InspectBucket(info, tried[k], rnd);
      tried := tried[k := v];
    }

    method MakeTried(id: Id, origin: nat, rnd: seq<nat>)
      requires Valid() && id in info && !info[id].inTried && origin < |news| && id in news[origin] && |rnd| >= INSPECT
      modifies this`info, this`tried, this`nTried, this`nNew, this`news
      ensures Valid()
      ensures CanMakeTried(env, old(S()), id, origin, rnd) && S() == MadeTried(env, old(S()), id, origin, rnd)
    {
      ghost var s := S();
      assert NewOk(info, news, NOBODY);
      UnlistingCounts(info, news, id);
      assert |news| == NEW_BUCKETS;
      hide Inv, NewOk, Holders, Distinct, CanMakeTried, MadeTried, Unlisted;
      MadeTriedInv(env, s, id, origin, rnd);
      MakeTriedReady(env, s, id, origin, rnd);
      Unlist(id);
      PlaceTried(id, origin, rnd, s);
    }

    /** `MakeTried` once the entry has left the new buckets. */
    method PlaceTried(id: Id, origin: nat, rnd: seq<nat>, ghost s: Tables)
      requires CanMakeTried(env, s, id, origin, rnd) && S() == Unlisted(s, id)
      modifies this`info, this`tried, this`nTried, this`nNew, this`news
      ensures S() == MadeTried(env, s, id, origin, rnd)
    {
      var k := TriedBucket(env, info[id]);
      assert k == TriedBucket(env, s.info[id]);
      hide TriedBucket, NewBucket, Inspect, Shuffle, InspectionOk, Replaced, Refuge, Distinct;
      if |tried[k]| < TRIED_SIZE {
        tried := tried[k := tried[k] + [id]];
        nTried := nTried + 1;
        info := info[id := info[id].(inTried := true)];
        return;
      }
      InspectSame(s.info, info, s.tried[k], rnd, INSPECT);
      ghost var r := Inspect(s.info, s.tried[k], rnd, INSPECT);
      var pos := SelectTried(k, rnd);
      ShuffleIn(s.tried[k], r.v, r.v[r.pos]);
      ReplaceAt(k, pos, id, origin);
    }

    /** The rest of `MakeTried` when the tried bucket is full. */
    method ReplaceAt(k: nat, pos: nat, id: Id, origin: nat)
      requires id in info && k < |tried| && pos < |tried[k]| && tried[k][pos] in info && |news| == NEW_BUCKETS && origin < NEW_BUCKETS
      modifies this`info, this`tried, this`nNew, this`news
      ensures S() == Replaced(old(S()), k, pos, id, Refuge(env, old(news), old(info[tried[k][pos]]), origin))
    {
      hide NewBucket;
      var out := tried[k][pos];
      var u := NewBucket(env, info[out], info[out].source);
      info := info[out := info[out].(inTried := false, refCount := 1)];
      if |news[u]| < NEW_SIZE {
        news := news[u := news[u] + {out}];
      } else {
        news := news[origin := news[origin] + {out}];
      }
      nNew := nNew + 1;
      var bucket: seq<Id> := tried[k][pos := id];
      tried := tried[k := bucket];
      info := info[id := info[id].(inTried := true)];
    }

    /** Out of every new bucket, counting the references down to none. */
    method Unlist(id: Id)
      requires id in info && info[id].refCount == |Holders(news, id)|
      modifies this`info, this`nNew, this`news
      ensures S() == Unlisted(old(S()), id)
    {
      hide Holders;
      ghost var entry := info[id];
      ghost var was := news;
      var b: nat := 0;
      while b < |news|
        invariant b <= |news| == |was|
        invariant forall d | 0 <= d < |news| :: news[d] == if d < b then was[d] - {id} else was[d]
        invariant info == old(info)[id := entry.(refCount := |Holders(news, id)|)]
        invariant nNew == old(nNew)
      {
        if id in news[b] {
          HolderGone(news, b, id);
          news := news[b := news[b] - {id}];
          info := info[id := info[id].(refCount := info[id].refCount - 1)];
        }
        b := b + 1;
      }
      NoHolders(news, id);
      assert news == Without(was, id);
      nNew := nNew - 1;
    }

    method Good(a: Service, time: int, start: nat, rnd: seq<nat>)
      requires Valid() && |rnd| >= INSPECT
      modifies this`info, this`tried, this`nTried, this`nNew, this`news
      ensures Valid()
      ensures GoodResult(env, old(S()), a, time, start, rnd, S())
    {
      hide Inv, MadeTried, CanMakeTried, FirstFrom;
      var found, id := Find(a.net);
      if !found { return; }
      if info[id].addr != a { return; }
      var i := info[id].(lastSuccess := time, lastTry := time, time := time, attempts := 0);
      TouchInv(env, S(), id, i, NOBODY);
      info := info[id := i];
      if info[id].inTried { return; }
      NewEntryHeld(env, S(), id);
      var held, b := FindBucket(news, id, start);
      if !held { return; }
      FirstFromIn(news, id, start, b);
      MakeTried(id, b, rnd);
    }

    /** The part of `Add_` after the entry is known: one more reference, in bucket `b`. */
    method List(b: nat, id: Id, now: int, n: seq<nat>)
      requires b < |news| && id in info && !info[id].inTried && |news[b]| <= NEW_SIZE && |n| == 4
      requires id in news[b] ==> Valid()
      requires id !in news[b] ==> Inv(env, SetInfo(S(), id, info[id].(refCount := info[id].refCount + 1)), id)
      modifies this`info, this`addr, this`random, this`nNew, this`news
      ensures Valid() && Listed(old(S()), b, id, now, n, S())
    {
      hide Inv, Chosen, Dropped, CanDrop, OthersKept;
      ghost var s := S();
      if id !in news[b] {
        info := info[id := info[id].(refCount := info[id].refCount + 1)];
        ghost var u := S();
        if |news[b]| == NEW_SIZE {
          var code := ShrinkNew(b, now, n, id);
          ghost var v :| Chosen(u.info, u.news[b], now, n, code, v) && CanDrop(u, b, v) && S() == Dropped(u, b, v);
          ChosenIn(u.info, u.news[b], now, n, code, v);
          DropInv(env, u, b, v, id);
        }
        news := news[b := news[b] + {id}];
      }
      ListedInv(env, s, b, id, now, n, S());
    }

    /** `Add_` for an address already known. */
    method AddSeen(id: Id, a: Address, source: Net, penalty: int, now: int, rnd: nat, n: seq<nat>)
      requires Valid() && |n| == 4 && id in info
      modifies this`info, this`addr, this`random, this`nNew, this`news
      ensures Valid()
      ensures SeenSpec(env, old(S()), id, a, source, penalty, now, rnd, n, S())
    {
      hide Inv, NewBucket, Listed;
      BucketsFit(env, S(), NOBODY);
      var i := Refreshed(info[id], a, penalty, now);
      TouchInv(env, S(), id, i, NOBODY);
      info := info[id := i];
      if a.time == 0 || (i.time != 0 && a.time <= i.time) { return; }
      if i.inTried { return; }
      if i.refCount == MAX_REFS { return; }
      var factor := Factor(i.refCount);
      if factor > 1 && rnd % factor != 0 { return; }
      RoomForMore(env, S(), id);
      BumpInv(env, S(), id, i.(refCount := i.refCount + 1));
      List(NewBucket(env, i, source), id, now, n);
    }

    /** `Add_` for an unknown address. */
    method AddNew(a: Address, source: Net, penalty: int, now: int, n: seq<nat>)
      requires Valid() && |n| == 4 && a.addr.net !in addr
      modifies this`idCount, this`info, this`addr, this`random, this`nNew, this`news
      ensures Valid()
      ensures AddedSpec(env, old(S()), a, source, penalty, now, n, S())
    {
      hide Inv, NewBucket, Listed;
      ghost var s := S();
      BucketsFit(env, s, NOBODY);
      NobodyYet(env, s);
      var i := Fresh(a, source, penalty);
      CreateInv(env, s, i);
      var id := Create(a, source);
      info := info[id := info[id].(time := Max0(info[id].time - penalty))];
      nNew := nNew + 1;
      assert S() == Created(s, i);
      var b := NewBucket(env, info[id], source);
      NewBucketOf(env, info[id], i, source);
      List(b, id, now, n);
    }

    method Add(a: Address, routable: bool, source: Net, penalty: int, now: int, rnd: nat, n: seq<nat>) returns (isNew: bool)
      requires Valid() && |n| == 4
      modifies this`idCount, this`info, this`addr, this`random, this`nNew, this`news
      ensures Valid()
      ensures isNew == (routable && a.addr.net !in old(addr))
      ensures AddResult(env, old(S()), a, routable, source, penalty, now, rnd, n, S())
    {
      hide Inv, AddedSpec, SeenSpec;
      if !routable { return false; }
      var found, id := Find(a.addr.net);
      if found {
        AddSeen(id, a, source, penalty, now, rnd, n);
      } else {
        AddNew(a, source, penalty, now, n);
      }
      isNew := !found;
    }

    method Attempt(a: Service, time: int)
      requires Valid()
      modifies this`info
      ensures Valid()
      ensures AttemptResult(old(S()), a, time, S())
    {
      hide Inv;
      var found, id := Find(a.net);
      if !found { return; }
      if info[id].addr != a { return; }
      var i := info[id].(lastTry := time, attempts := info[id].attempts + 1);
      TouchInv(env, S(), id, i, NOBODY);
      info := info[id := i];
    }

    method Connected(a: Service, time: int)
      requires Valid()
      modifies this`info
      ensures Valid()
      ensures ConnectedResult(old(S()), a, time, S())
    {
      hide Inv;
      var found, id := Find(a.net);
      if !found { return; }
      if info[id].addr != a { return; }
      if time - info[id].time > 20 * 60 {
        TouchInv(env, S(), id, info[id].(time := time), NOBODY);
        info := info[id := info[id].(time := time)];
      }
    }

    /** One step of `GetAddr_`. */
    method DrawNext(m: nat, p: nat) returns (i: Info)
      requires Valid() && m <= p < |random|
      modifies this`info, this`random
      ensures Valid() && Moved(old(info), info) && |random| == |old(random)|
      ensures CanSwap(old(S()), m, p) && S() == Swapped(old(S()), m, p)
      ensures forall l | 0 <= l < m :: random[l] == old(random[l])
      ensures random[m] in info && i == info[random[m]]
    {
      hide Inv, Moved;
      SwapInv(env, S(), m, p, NOBODY);
      SwapRandom(m, p);
      PlacedEntry(env, S(), m);
      i := info[random[m]];
    }

    /** Shuffles only as much as it returns: distinct known addresses, at most 23 percent and at most 2500. */
    method GetAddr(rnd: seq<nat>) returns (out: seq<Info>)
      requires Valid() && |rnd| >= GETADDR_MAX
      modifies this`info, this`random
      ensures Valid() && Moved(old(info), info)
      ensures Share(|old(random)|) <= |rnd| && ShuffledBy(old(S()), rnd, Share(|old(random)|)) == Some(S())
      ensures |out| == Share(|random|) == Min(23 * |random| / 100, 2500) <= |random| == |old(random)|
      ensures forall m | 0 <= m < |out| :: random[m] in old(info) && out[m].addr == old(info)[random[m]].addr
      ensures forall l, m | 0 <= l < m < |out| :: out[l].addr.net != out[m].addr.net
    {
      hide Inv, Moved, Swapped, CanSwap, DrawFrom, ShuffledBy;
      NoShuffle(S(), rnd);
      var nodes := GETADDR_PCT * |random| / 100;
      if nodes > GETADDR_MAX { nodes := GETADDR_MAX; }
      out := [];
      MovedSelf(info);
      ghost var s := S();
      var m: nat := 0;
      while m < nodes
        invariant m <= nodes <= |random| == |s.random| && |out| == m
        invariant Valid() && Moved(s.info, info) && ShuffledBy(s, rnd, m) == Some(S())
        invariant forall l | 0 <= l < m :: random[l] in s.info && out[l].addr == s.info[random[l]].addr
      {
        var p := DrawFrom(rnd[m], |random|, m);
        ghost var before, u := info, S();
        var next := DrawNext(m, p);
        ShuffleOne(s, rnd, m, u);
        MovedTwice(s.info, before, info);
        MovedEntry(s.info, info, random[m]);
        out := out + [next];
        m := m + 1;
      }
      DistinctAddresses(env, S(), s.info, out);
    }
  }

  lemma HolderGone(news: seq<set<Id>>, b: nat, id: Id)
    requires b < |news| && id in news[b]
    ensures |Holders(news[b := news[b] - {id}], id)| == |Holders(news, id)| - 1
  {
    HoldersRemove(news, b, id, id);
    assert b in Holders(news, id);
  }

  lemma NoHolders(news: seq<set<Id>>, id: Id)
    requires forall b | 0 <= b < |news| :: id !in news[b]
    ensures Holders(news, id) == {}
  {}

  lemma UnlistingCounts(info: map<Id, Info>, news: seq<set<Id>>, id: Id)
    requires NewOk(info, news, NOBODY) && id in info && !info[id].inTried
    ensures info[id].refCount == |Holders(news, id)|
  {}

  /** The inspection looks only at the entries of the bucket. */
  lemma InspectSame(a: map<Id, Info>, b: map<Id, Info>, v: seq<Id>, rnd: seq<nat>, n: nat)
    requires n <= |v| && n <= |rnd| && (forall j | j in v :: j in a && j in b && a[j] == b[j])
    ensures Inspect(a, v, rnd, n) == Inspect(b, v, rnd, n)
  {
    hide Shuffle, InspectionOk, InspectStep;
    if n > 0 {
      InspectSame(a, b, v, rnd, n - 1);
      StepSame(a, b, v, Inspect(a, v, rnd, n - 1), n - 1, rnd[n - 1]);
    }
  }

  lemma StepSame(a: map<Id, Info>, b: map<Id, Info>, v: seq<Id>, r: Inspection, i: nat, draw: nat)
    requires Shuffle(v, r.v) && InspectionOk(a, r) && InspectionOk(b, r) && i < |r.v| && (forall j | j in v :: j in a && j in b && a[j] == b[j])
    ensures InspectStep(a, r, i, draw) == InspectStep(b, r, i, draw)
  {
    hide Distinct;
    var p := DrawFrom(draw, |r.v|, i);
    assert r.v[p] in r.v;
  }

  lemma BucketKnown(info: map<Id, Info>, news: seq<set<Id>>, x: int, b: nat)
    requires NewOk(info, news, x) && b < |news|
    ensures news[b] <= info.Keys
  {}

  lemma MovedSelf(a: map<Id, Info>)
    ensures Moved(a, a)
  {}

  lemma MovedEntry(a: map<Id, Info>, b: map<Id, Info>, id: Id)
    requires Moved(a, b) && id in b
    ensures id in a && a[id].addr == b[id].addr
  {}

  lemma PlacedEntry(env: Env, s: Tables, m: nat)
    requires Inv(env, s, NOBODY) && m < |s.random|
    ensures s.random[m] in s.info
  {}

  /** How many addresses are given out. */
  function Share(n: nat): nat { if GETADDR_PCT * n / 100 > GETADDR_MAX then GETADDR_MAX else GETADDR_PCT * n / 100 }

  lemma DistinctAddresses(env: Env, s: Tables, was: map<Id, Info>, out: seq<Info>)
    requires Inv(env, s, NOBODY) && Moved(was, s.info) && |out| <= |s.random|
    requires forall m | 0 <= m < |out| :: s.random[m] in was && out[m].addr == was[s.random[m]].addr
    ensures forall l, m | 0 <= l < m < |out| :: out[l].addr.net != out[m].addr.net
  {
    hide NewOk, TriedOk, CountsOk;
    forall l, m | 0 <= l < m < |out| ensures out[l].addr.net != out[m].addr.net
    {
      var a, b := s.random[l], s.random[m];
      assert s.info[a].randomPos == l && s.info[b].randomPos == m;
      assert s.addr[s.info[a].addr.net] == a && s.addr[s.info[b].addr.net] == b;
    }
  }

  /** Doubling once per reference. */
  method Factor(refs: int) returns (factor: nat)
    ensures factor == Pow2(Max(refs, 0))
  {
    factor := 1;
    var n: nat := 0;
    while n < refs
      invariant n <= Max(refs, 0) && factor == Pow2(n)
    {
      factor := factor * 2;
      n := n + 1;
    }
  }

  lemma RoomForMore(env: Env, s: Tables, id: Id)
    requires Inv(env, s, NOBODY) && id in s.info && !s.info[id].inTried
    ensures s.info[id].refCount <= MAX_REFS
  {}

  lemma BucketsFit(env: Env, s: Tables, x: int)
    requires Inv(env, s, x)
    ensures |s.news| == NEW_BUCKETS && forall b | 0 <= b < |s.news| :: |s.news[b]| <= NEW_SIZE
  {}

  lemma NobodyYet(env: Env, s: Tables)
    requires Inv(env, s, NOBODY)
    ensures s.idCount !in s.info && forall b | 0 <= b < |s.news| :: s.idCount !in s.news[b]
  {}

  lemma NewBucketOf(env: Env, a: Info, b: Info, source: Net)
    requires a.addr == b.addr
    ensures NewBucket(env, a, source) == NewBucket(env, b, source)
  {}

  /** A first announcement: a new entry, listed in the bucket of its address and source. */
  ghost predicate AddedSpec(env: Env, s: Tables, a: Address, source: Net, penalty: int, now: int, n: seq<nat>, t: Tables)
  {
    var i := Fresh(a, source, penalty);
    var b := NewBucket(env, i, source);
    b < |s.news| && Listed(Created(s, i), b, s.idCount, now, n, t)
  }

  /** A repeated announcement: a refreshed entry, perhaps with one more reference. */
  ghost predicate SeenSpec(env: Env, s: Tables, id: Id, a: Address, source: Net, penalty: int, now: int, rnd: nat, n: seq<nat>, t: Tables)
    requires id in s.info
  {
    var i := Refreshed(s.info[id], a, penalty, now);
    var u := SetInfo(s, id, i);
    var b := NewBucket(env, i, source);
    if Listable(i, a, rnd) then b < |u.news| && Listed(u, b, id, now, n, t) else t == u
  }

  /** All cases of `Add_`. */
  ghost predicate AddResult(env: Env, s: Tables, a: Address, routable: bool, source: Net, penalty: int, now: int, rnd: nat, n: seq<nat>, t: Tables)
  {
    if !routable then t == s
    else if a.addr.net !in s.addr then AddedSpec(env, s, a, source, penalty, now, n, t)
    else
      var id := s.addr[a.addr.net];
      id in s.info && SeenSpec(env, s, id, a, source, penalty, now, rnd, n, t)
  }

  /** All cases of `Good_`. */
  ghost predicate GoodResult(env: Env, s: Tables, a: Service, time: int, start: nat, rnd: seq<nat>, t: Tables)
  {
    if a.net !in s.addr then t == s
    else
      var id := s.addr[a.net];
      id in s.info && GoodSpec(env, s, id, a, time, start, rnd, t)
  }

  /** All cases of `Attempt_`: the exact service only. */
  predicate AttemptResult(s: Tables, a: Service, time: int, t: Tables)
  {
    if a.net !in s.addr then t == s
    else
      var id := s.addr[a.net];
      && id in s.info
      && var i := s.info[id];
         t == if i.addr == a then SetInfo(s, id, i.(lastTry := time, attempts := i.attempts + 1)) else s
  }

  /** All cases of `Connected_`: the exact service, last seen more than twenty minutes ago. */
  predicate ConnectedResult(s: Tables, a: Service, time: int, t: Tables)
  {
    if a.net !in s.addr then t == s
    else
      var id := s.addr[a.net];
      && id in s.info
      && var i := s.info[id];
         t == if i.addr == a && time - i.time > 1200 then SetInfo(s, id, i.(time := time)) else s
  }

  /** The tables after `m` steps of the shuffle of `GetAddr_`, if every position drawn is there. */
  function ShuffledBy(s: Tables, rnd: seq<nat>, m: nat): Option<Tables>
    requires m <= |rnd|
  {
    if m == 0 then Some(s)
    else
      match ShuffledBy(s, rnd, m - 1)
      case None => None
      case Some(u) => ShuffleStep(u, rnd[m - 1], m - 1)
  }

  function ShuffleStep(u: Tables, draw: nat, m: nat): Option<Tables>
  {
    if m < |u.random| && CanSwap(u, m, DrawFrom(draw, |u.random|, m)) then Some(Swapped(u, m, DrawFrom(draw, |u.random|, m)))
    else None
  }

  lemma NoShuffle(s: Tables, rnd: seq<nat>)
    ensures ShuffledBy(s, rnd, 0) == Some(s)
  {}

  lemma ShuffleOne(s: Tables, rnd: seq<nat>, m: nat, u: Tables)
    requires m < |rnd| && ShuffledBy(s, rnd, m) == Some(u)
    ensures ShuffledBy(s, rnd, m + 1) == ShuffleStep(u, rnd[m], m)
  {
    hide ShuffleStep;
  }

  /** The bucket looked at in step `d` of a cyclic search from a drawn bucket. */
  function Probe(size: nat, start: nat, d: nat): (b: nat)
    requires size > 0
    ensures b < size
  {
    (d + start % size) % size
  }

  /** The first bucket holding `id` in a cyclic search. */
  ghost predicate FirstFrom(news: seq<set<Id>>, id: Id, start: nat, b: nat)
  {
    && b < |news| && id in news[b]
    && exists d: nat :: b == Probe(|news|, start, d) && forall e: nat | e < d :: id !in news[Probe(|news|, start, e)]
  }

  method FindBucket(news: seq<set<Id>>, id: Id, start: nat) returns (found: bool, b: nat)
    ensures found == exists c :: 0 <= c < |news| && id in news[c]
    ensures found ==> FirstFrom(news, id, start, b)
  {
    hide Probe;
    b := 0;
    var d: nat := 0;
    while d < |news|
      invariant d <= |news|
      invariant forall e: nat | e < d :: id !in news[Probe(|news|, start, e)]
    {
      b := Probe(|news|, start, d);
      if id in news[b] { return true, b; }
      d := d + 1;
    }
    forall c | 0 <= c < |news| ensures id !in news[c]
    {
      var e := ProbeHits(|news|, start, c);
    }
    found := false;
  }

  lemma FirstFromIn(news: seq<set<Id>>, id: Id, start: nat, b: nat)
    requires FirstFrom(news, id, start, b)
    ensures b < |news| && id in news[b]
  {}

  ghost function ProbeHits(size: nat, start: nat, c: nat): (d: nat)
    requires c < size
    ensures d < size && Probe(size, start, d) == c
  {
    var from := start % size;
    var d := if from <= c then c - from else c + size - from;
    assert (d + from) % size == c by { ModOf(size, c); }
    d
  }

  lemma ModOf(size: nat, c: nat)
    requires c < size
    ensures c % size == c && (c + size) % size == c
  {}

  /** A successful connection: statistics, then promotion unless already tried. */
  ghost predicate GoodSpec(env: Env, s: Tables, id: Id, a: Service, time: int, start: nat, rnd: seq<nat>, t: Tables)
    requires id in s.info
  {
    if s.info[id].addr != a then t == s
    else
      var u := SetInfo(s, id, s.info[id].(lastSuccess := time, lastTry := time, time := time, attempts := 0));
      if s.info[id].inTried then t == u
      else exists b :: FirstFrom(u.news, id, start, b) && CanMakeTried(env, u, id, b, rnd) && t == MadeTried(env, u, id, b, rnd)
  }
}
