/** The address manager's own consistency check (`Check_`), proved to find nothing wrong with any state
    that satisfies the invariant, except for statistics no caller should have passed in. */
module AddrManCheck {
  import opened Basics
  import opened AddrMan
  import opened AddrManInv
  import opened AddrManOps
  import opened AddrManDisk

  /** What the check asks of an entry's statistics. */
  predicate StatsOk(i: Info) { (i.inTried ==> i.lastSuccess != 0) && i.lastTry >= 0 && i.lastSuccess >= 0 }

  ghost predicate AllStatsOk(info: map<Id, Info>) { forall id | id in info :: StatsOk(info[id]) }

  // ---- the pass over the entries ----

  /** The test of one entry; 0 if nothing is wrong. */
  function EntryCode(s: Tables, n: Id): int
    requires n in s.info
  {
    var i := s.info[n];
    if i.inTried && i.lastSuccess == 0 then -1
    else if i.inTried && i.refCount != 0 then -2
    else if !i.inTried && (i.refCount < 0 || i.refCount > MAX_REFS) then -3
    else if !i.inTried && i.refCount == 0 then -4
    else if (if i.addr.net in s.addr then s.addr[i.addr.net] else 0) != n then -5
    else if i.randomPos < 0 || i.randomPos >= |s.random| || s.random[i.randomPos] != n then -14
    else if i.lastTry < 0 then -6
    else if i.lastSuccess < 0 then -8
    else 0
  }

  lemma EntryPasses(env: Env, s: Tables, n: Id)
    requires Inv(env, s, NOBODY) && n in s.info
    ensures EntryCode(s, n) == 0 <==> StatsOk(s.info[n])
  {
    hide CountsOk, Holders, Distinct, TriedBucket;
  }

  /** What the pass has collected from some entries. */
  ghost predicate Collected(info: map<Id, Info>, seen: seq<Id>, tried: set<Id>, news: map<Id, int>)
  {
    && (forall n | n in seen :: n in info)
    && (forall n :: n in tried <==> n in seen && info[n].inTried)
    && (forall n :: n in news <==> n in seen && !info[n].inTried)
    && (forall n | n in news :: news[n] == info[n].refCount)
  }

  lemma CollectStep(info: map<Id, Info>, seen: seq<Id>, tried: set<Id>, news: map<Id, int>, n: Id)
    requires Collected(info, seen, tried, news) && n in info
    ensures info[n].inTried ==> Collected(info, seen + [n], tried + {n}, news)
    ensures !info[n].inTried ==> Collected(info, seen + [n], tried, news[n := info[n].refCount])
  {}

  lemma CollectedAll(info: map<Id, Info>, seen: seq<Id>, tried: set<Id>, news: map<Id, int>)
    requires Collected(info, seen, tried, news) && forall n :: n in seen <==> n in info.Keys
    ensures tried == TriedIds(info) && news.Keys == NewIds(info) && forall n | n in news :: n in info && news[n] == info[n].refCount
  {}

  ghost predicate Passed(s: Tables, seen: seq<Id>) { forall n | n in seen :: n in s.info && EntryCode(s, n) == 0 }

  method CheckEntries(s: Tables) returns (code: int, tried: set<Id>, news: map<Id, int>)
    ensures code == 0 ==> tried == TriedIds(s.info) && news.Keys == NewIds(s.info)
    ensures code == 0 ==> forall n | n in news :: n in s.info && news[n] == s.info[n].refCount
    ensures code == 0 <==> forall n | n in s.info :: EntryCode(s, n) == 0
  {
    hide Ascending, EntryCode, Collected;
    tried, news := {}, map[];
    var ids := Ascending(s.info.Keys);
    CollectedNone(s.info);
    var k: nat := 0;
    while k < |ids|
      invariant k <= |ids| && Collected(s.info, ids[..k], tried, news) && Passed(s, ids[..k])
    {
      var n := ids[k];
      assert n in ids;
      assert ids[..k + 1] == ids[..k] + [n];
      var c := EntryCode(s, n);
      if c != 0 { return c, tried, news; }
      CollectStep(s.info, ids[..k], tried, news, n);
      if s.info[n].inTried { tried := tried + {n}; } else { news := news[n := s.info[n].refCount]; }
      k := k + 1;
    }
    assert ids[..k] == ids;
    CollectedAll(s.info, ids, tried, news);
    code := 0;
  }

  lemma CollectedNone(info: map<Id, Info>)
    ensures Collected(info, [], {}, map[])
  {}

  // ---- the pass over the tried buckets ----

  /** The tried entries not yet seen: those of bucket b from position i on, and of all later buckets. */
  ghost predicate Unseen(tried: seq<seq<Id>>, b: nat, i: nat, left: set<Id>)
    requires b <= |tried| && (b < |tried| ==> i <= |tried[b]|)
  {
    forall n :: n in left <==> (b < |tried| && n in tried[b][i..]) || exists c :: b < c < |tried| && n in tried[c]
  }

  lemma UnseenStart(env: Env, info: map<Id, Info>, tried: seq<seq<Id>>)
    requires TriedOk(env, info, tried)
    ensures |tried| > 0 && Unseen(tried, 0, 0, TriedIds(info))
  {
    hide Distinct;
    forall n | n in TriedIds(info) ensures n in tried[0][0..] || exists c :: 0 < c < |tried| && n in tried[c]
    {
      var c := TriedBucket(env, info[n]);
      assert n in tried[c];
      assert tried[0][0..] == tried[0];
    }
  }

  lemma SeeOne(env: Env, info: map<Id, Info>, tried: seq<seq<Id>>, b: nat, i: nat, left: set<Id>)
    requires TriedOk(env, info, tried) && b < |tried| && i < |tried[b]| && Unseen(tried, b, i, left)
    ensures tried[b][i] in left && Unseen(tried, b, i + 1, left - {tried[b][i]})
  {
    hide TriedBucket;
    var n := tried[b][i];
    assert tried[b][i..] == [n] + tried[b][i + 1..];
    assert n in tried[b][i..];
    var later := tried[b][i + 1..];
    forall m | m in later ensures m != n
    {
      var j :| 0 <= j < |later| && later[j] == m;
      assert tried[b][i + 1 + j] == m;
    }
    assert n in tried[b];
    forall c | b < c < |tried| ensures n !in tried[c] { NotBoth(env, info, tried, b, c, n); }
  }

  lemma NotBoth(env: Env, info: map<Id, Info>, tried: seq<seq<Id>>, b: nat, c: nat, n: Id)
    requires TriedOk(env, info, tried) && b < |tried| && c < |tried| && b != c && n in tried[b]
    ensures n !in tried[c]
  {
    InBucket(env, info, tried, b, n);
    InBucket(env, info, tried, c, n);
    hide TriedOk, TriedBucket;
  }

  lemma InBucket(env: Env, info: map<Id, Info>, tried: seq<seq<Id>>, b: nat, n: Id)
    requires TriedOk(env, info, tried) && b < |tried|
    ensures n in tried[b] ==> n in info && TriedBucket(env, info[n]) == b
  {}

  lemma NextBucketUnseen(tried: seq<seq<Id>>, b: nat, left: set<Id>)
    requires b < |tried| && Unseen(tried, b, |tried[b]|, left)
    ensures Unseen(tried, b + 1, 0, left)
  {
    assert tried[b][|tried[b]|..] == [];
    assert b + 1 < |tried| ==> tried[b + 1][0..] == tried[b + 1];
    forall n | n in left ensures (b + 1 < |tried| && n in tried[b + 1][0..]) || exists c :: b + 1 < c < |tried| && n in tried[c]
    {
      var c :| b < c < |tried| && n in tried[c];
    }
  }

  method CheckTriedBuckets(env: Env, s: Tables, all: set<Id>) returns (code: int, left: set<Id>)
    ensures Inv(env, s, NOBODY) && all == TriedIds(s.info) ==> code == 0 && left == {}
  {
    hide Unseen, Inv, TriedOk;
    ghost var good := Inv(env, s, NOBODY) && all == TriedIds(s.info);
    left := all;
    if good {
      TriedPart(env, s);
      UnseenStart(env, s.info, s.tried);
    }
    var b: nat := 0;
    while b < |s.tried|
      invariant b <= |s.tried|
      invariant good ==> TriedOk(env, s.info, s.tried) && Unseen(s.tried, b, 0, left)
    {
      var i: nat := 0;
      while i < |s.tried[b]|
        invariant i <= |s.tried[b]|
        invariant good ==> TriedOk(env, s.info, s.tried) && Unseen(s.tried, b, i, left)
      {
        if good { SeeOne(env, s.info, s.tried, b, i, left); }
        if s.tried[b][i] !in left { return -11, left; }
        left := left - {s.tried[b][i]};
        i := i + 1;
      }
      if good { NextBucketUnseen(s.tried, b, left); }
      b := b + 1;
    }
    if good { AllSeen(s.tried, left); }
    code := 0;
  }

  lemma TriedPart(env: Env, s: Tables)
    requires Inv(env, s, NOBODY)
    ensures TriedOk(env, s.info, s.tried)
  {}

  lemma AllSeen(tried: seq<seq<Id>>, left: set<Id>)
    requires Unseen(tried, |tried|, 0, left)
    ensures left == {}
  {}

  // ---- the pass over the new buckets ----

  /** How many buckets from b on hold an entry. */
  function Remaining(news: seq<set<Id>>, b: nat, n: Id): nat
    decreases |news| - b
  {
    if b >= |news| then 0 else (if n in news[b] then 1 else 0) + Remaining(news, b + 1, n)
  }

  lemma HoldersFrom(news: seq<set<Id>>, b: nat, n: Id)
    requires b <= |news|
    ensures Remaining(news, b, n) == |set c | b <= c < |news| && n in news[c]|
    decreases |news| - b
  {
    var h := set c | b <= c < |news| && n in news[c];
    if b < |news| {
      HoldersFrom(news, b + 1, n);
      var rest := set c | b + 1 <= c < |news| && n in news[c];
      assert h == rest + (if n in news[b] then {b} else {});
    } else {
      assert h == {};
    }
  }

  lemma RemainingIsHolders(news: seq<set<Id>>, n: Id)
    ensures Remaining(news, 0, n) == |Holders(news, n)|
  {
    HoldersFrom(news, 0, n);
    assert Holders(news, n) == set c | 0 <= c < |news| && n in news[c];
  }

  /** References still to be found: in the part of bucket b not yet seen, and in later buckets. */
  function Open(news: seq<set<Id>>, b: nat, seen: set<Id>, n: Id): nat
    requires b < |news|
  {
    (if n in news[b] && n !in seen then 1 else 0) + Remaining(news, b + 1, n)
  }

  /** The counters hold exactly the positive counts. */
  ghost predicate Counts(left: map<Id, int>, f: Id -> nat)
  {
    (forall n: Id :: n in left <==> f(n) > 0) && (forall n | n in left :: left[n] == f(n))
  }

  lemma CountDown(left: map<Id, int>, f: Id -> nat, g: Id -> nat, n: Id)
    requires Counts(left, f) && f(n) == g(n) + 1 && forall m: Id | m != n :: f(m) == g(m)
    ensures n in left && Counts(if left[n] - 1 == 0 then left - {n} else left[n := left[n] - 1], g)
  {}

  lemma CountsSame(left: map<Id, int>, f: Id -> nat, g: Id -> nat)
    requires Counts(left, f) && forall m: Id :: f(m) == g(m)
    ensures Counts(left, g)
  {}

  ghost function Later(news: seq<set<Id>>, b: nat): Id -> nat { (n: Id) => Remaining(news, b, n) }

  ghost function Now(news: seq<set<Id>>, b: nat, seen: set<Id>): Id -> nat requires b < |news| { (n: Id) => Open(news, b, seen, n) }

  method CheckNewBuckets(env: Env, s: Tables, all: map<Id, int>) returns (code: int, left: map<Id, int>)
    requires forall n | n in all :: n in s.info
    ensures Inv(env, s, NOBODY) && all.Keys == NewIds(s.info) && (forall n | n in all :: all[n] == s.info[n].refCount) ==>
              code == 0 && left == map[]
  {
    hide Inv, Counts, Remaining, Open, Ascending;
    ghost var good := Inv(env, s, NOBODY) && all.Keys == NewIds(s.info) && (forall n | n in all :: all[n] == s.info[n].refCount);
    left := all;
    if good { CountsStart(env, s, all); }
    var b: nat := 0;
    while b < |s.news|
      invariant b <= |s.news| && (good ==> Counts(left, Later(s.news, b)))
    {
      var order := Ascending(s.news[b]);
      if good { OpenBucket(s.news, b, left); }
      var i: nat := 0;
      ghost var seen: set<Id> := {};
      while i < |order|
        invariant i <= |order| && (good ==> Counts(left, Now(s.news, b, seen)))
        invariant forall n :: n in seen <==> n in order[..i]
      {
        var n := order[i];
        assert n in order;
        assert order[..i + 1] == order[..i] + [n];
        if good { FindOne(s.news, b, seen, n, left); }
        if n !in left { return -12, left; }
        left := if left[n] - 1 == 0 then left - {n} else left[n := left[n] - 1];
        seen := seen + {n};
        i := i + 1;
      }
      assert order[..i] == order;
      if good { CloseBucket(s.news, b, seen, left); }
      b := b + 1;
    }
    if good { NothingLeft(s.news, left); }
    code := 0;
  }

  lemma CountsStart(env: Env, s: Tables, all: map<Id, int>)
    requires Inv(env, s, NOBODY) && all.Keys == NewIds(s.info) && forall n | n in all :: n in s.info && all[n] == s.info[n].refCount
    ensures Counts(all, Later(s.news, 0))
  {
    hide RandomOk, AddrOk, TriedOk, CountsOk, Remaining;
    forall n: Id ensures (n in all <==> Later(s.news, 0)(n) > 0) && (n in all ==> all[n] == Later(s.news, 0)(n))
    {
      RemainingIsHolders(s.news, n);
      if n !in all { NoHolder(s, n); }
    }
  }

  lemma NoHolder(s: Tables, n: Id)
    requires NewOk(s.info, s.news, NOBODY) && n !in NewIds(s.info)
    ensures Holders(s.news, n) == {}
  {}

  lemma OpenBucket(news: seq<set<Id>>, b: nat, left: map<Id, int>)
    requires b < |news| && Counts(left, Later(news, b))
    ensures Counts(left, Now(news, b, {}))
  {
    hide Counts;
    CountsSame(left, Later(news, b), Now(news, b, {}));
  }

  lemma FindOne(news: seq<set<Id>>, b: nat, seen: set<Id>, n: Id, left: map<Id, int>)
    requires b < |news| && Counts(left, Now(news, b, seen)) && n in news[b] && n !in seen
    ensures n in left && Counts(if left[n] - 1 == 0 then left - {n} else left[n := left[n] - 1], Now(news, b, seen + {n}))
  {
    hide Counts, Remaining;
    CountDown(left, Now(news, b, seen), Now(news, b, seen + {n}), n);
  }

  lemma CloseBucket(news: seq<set<Id>>, b: nat, seen: set<Id>, left: map<Id, int>)
    requires b < |news| && Counts(left, Now(news, b, seen)) && news[b] <= seen
    ensures Counts(left, Later(news, b + 1))
  {
    hide Counts, Remaining;
    CountsSame(left, Now(news, b, seen), Later(news, b + 1));
  }

  lemma NothingLeft(news: seq<set<Id>>, left: map<Id, int>)
    requires Counts(left, Later(news, |news|))
    ensures left == map[]
  {
    forall n: Id ensures n !in left { assert Later(news, |news|)(n) == 0; }
  }

  // ---- the whole check ----

  lemma SizesAgree(env: Env, s: Tables)
    requires Inv(env, s, NOBODY)
    ensures |s.random| == s.nTried + s.nNew && |TriedIds(s.info)| == s.nTried && |NewIds(s.info)| == s.nNew
  {
    OrderLists(env, s);
    var o := Order(s.info);
    hide AddrOk, NewOk, TriedOk, Order;
    assert Distinct(s.random) by { RandomDistinct(s.info, s.random); }
    SizeOfDistinct(s.random, s.info.Keys);
    SizeOfDistinct(o, s.info.Keys);
  }

  lemma RandomDistinct(info: map<Id, Info>, random: seq<Id>)
    requires RandomOk(info, random)
    ensures Distinct(random) && forall j :: j in random <==> j in info.Keys
  {
    forall i, j | 0 <= i < j < |random| ensures random[i] != random[j] { assert info[random[i]].randomPos == i && info[random[j]].randomPos == j; }
    forall n | n in info.Keys ensures n in random { assert random[info[n].randomPos] == n; }
  }

  /** Main result: on every state satisfying the invariant the check reports 0, exactly when the statistics
      are not negative and every tried entry has had a success. */
  method Check(env: Env, s: Tables) returns (code: int)
    ensures Inv(env, s, NOBODY) ==> (code == 0 <==> AllStatsOk(s.info))
  {
    hide Inv, EntryCode;
    ghost var good := Inv(env, s, NOBODY);
    if good {
      SizesAgree(env, s);
      forall n | n in s.info ensures EntryCode(s, n) == 0 <==> StatsOk(s.info[n]) { EntryPasses(env, s, n); }
    }
    if |s.random| != s.nTried + s.nNew { return -7; }
    var c, tried, news := CheckEntries(s);
    if c != 0 { return c; }
    if |tried| != s.nTried { return -9; }
    if |news| != s.nNew {
      KeysSize(news);
      return -10;
    }
    c, tried := CheckTriedBuckets(env, s, tried);
    if c != 0 { return c; }
    c, news := CheckNewBuckets(env, s, news);
    if c != 0 { return c; }
    if tried != {} { return -13; }
    if news != map[] { return -15; }
    code := 0;
  }

  lemma KeysSize(m: map<Id, int>)
    ensures |m| == |m.Keys|
  {}
}
