/** What the time stamps and counters of the address manager are for: which entries may be deleted and when, and
    how announcements, attempts and successes change that. */
module AddrManLaws {
  import opened Basics
  import opened AddrMan
  import opened AddrManInv
  import opened AddrManOps

  const MINUTE: int := 60
  const HOUR: int := 3600
  const DAY: int := 86400

  /** Nothing is worth keeping about an entry whose last attempt is more than a minute ago: its stamp is more than
      ten minutes ahead, missing or older than thirty days, or it was tried three times and never reached, or ten
      times without success in the last week. */
  ghost predicate Worthless(i: Info, now: int)
  {
    && (i.lastTry == 0 || now - i.lastTry > MINUTE)
    && (|| i.time - now > 10 * MINUTE
        || i.time == 0 || now - i.time > 30 * DAY
        || (i.lastSuccess == 0 && i.attempts >= 3)
        || (now - i.lastSuccess > 7 * DAY && i.attempts >= 10))
  }

  /** Main result: `ShrinkNew` deletes a worthless entry, the one with the smallest id, exactly when there is one
      (code 0); otherwise it takes, of the entries at the four drawn ranks, one that was seen least recently. */
  lemma WhatShrinkNewTakes(info: map<Id, Info>, bucket: set<Id>, now: int, n: seq<nat>, code: int, v: Id)
    requires Chosen(info, bucket, now, n, code, v)
    ensures v in bucket && bucket <= info.Keys && |n| == 4 && (code == 0 || code == 1)
    ensures code == 0 <==> exists y :: y in bucket && Worthless(info[y], now)
    ensures code == 0 ==> Worthless(info[v], now) && forall y | y in bucket && Worthless(info[y], now) :: v <= y
    ensures code == 1 ==> var order := Ascending(bucket);
                          && (exists d | 0 <= d < 4 :: order[n[d] % |order|] == v)
                          && forall d | 0 <= d < 4 :: info[v].time <= info[order[n[d] % |order|]].time
  {
    forall y ensures y in info ==> (Worthless(info[y], now) <==> IsTerrible(info[y], now)) { if y in info { WorthlessIs(info[y], now); } }
    hide Ascending, Drawn, IsTerrible, Worthless;
    if code == 1 { OneOfFour(info, bucket, now, n, v); }
  }

  lemma WorthlessIs(i: Info, now: int)
    ensures Worthless(i, now) <==> IsTerrible(i, now)
  {}

  lemma OneOfFour(info: map<Id, Info>, bucket: set<Id>, now: int, n: seq<nat>, v: Id)
    requires Chosen(info, bucket, now, n, 1, v)
    ensures var order := Ascending(bucket);
            && (exists d | 0 <= d < 4 :: order[n[d] % |order|] == v)
            && forall d | 0 <= d < 4 :: info[v].time <= info[order[n[d] % |order|]].time
  {
    hide Ascending, IsTerrible, Drawn;
    var order := Ascending(bucket);
    var p: nat :| p < |order| && order[p] == v && Drawn(n, |order|, p) &&
                  forall q: nat | q < |order| && Drawn(n, |order|, q) :: info[v].time <= info[order[q]].time;
    hide Chosen;
    DrawnRanks(n, |order|, p);
  }

  lemma DrawnRanks(n: seq<nat>, size: nat, p: nat)
    requires |n| == 4 && 0 < size
    ensures forall d | 0 <= d < 4 :: Drawn(n, size, n[d] % size)
    ensures Drawn(n, size, p) ==> exists d | 0 <= d < 4 :: n[d] % size == p
  {}

  // ---- attempts and successes ----

  /** A number of attempts on one service, each at its own time. */
  ghost predicate Attempted(s: Tables, a: Service, times: seq<int>, t: Tables)
  {
    if times == [] then t == s
    else
      var k := |times| - 1;
      exists u :: Attempted(s, a, times[..k], u) && AttemptResult(u, a, times[k], t)
  }

  ghost predicate Knows(s: Tables, a: Service, id: Id)
  {
    a.net in s.addr && s.addr[a.net] == id && id in s.info && s.info[id].addr == a
  }

  lemma {:induction false} AttemptsCount(s: Tables, a: Service, id: Id, times: seq<int>, t: Tables)
    requires Knows(s, a, id) && Attempted(s, a, times, t)
    ensures Knows(t, a, id)
    ensures t.info[id] == s.info[id].(attempts := s.info[id].attempts + |times|,
                                      lastTry := if times == [] then s.info[id].lastTry else times[|times| - 1])
    decreases |times|
  {
    if times != [] {
      var k := |times| - 1;
      var u :| Attempted(s, a, times[..k], u) && AttemptResult(u, a, times[k], t);
      AttemptsCount(s, a, id, times[..k], u);
    }
  }

  /** The stamp neither lies ahead by more than ten minutes nor is older than thirty days. */
  predicate SoundStamp(time: int, now: int) { time != 0 && time <= now + 10 * MINUTE && now <= time + 30 * DAY }

  /** Main result: an entry never reached may be deleted after exactly three attempts, once a minute has passed. */
  lemma UnreachedEntry(s: Tables, a: Service, id: Id, times: seq<int>, t: Tables, now: int)
    requires Knows(s, a, id) && Attempted(s, a, times, t)
    requires s.info[id].lastSuccess == 0 && s.info[id].attempts == 0 && s.info[id].lastTry == 0
    requires SoundStamp(s.info[id].time, now) && forall k | 0 <= k < |times| :: 0 < times[k]
    ensures Knows(t, a, id)
    ensures IsTerrible(t.info[id], now) <==> |times| >= 3 && now - times[|times| - 1] > MINUTE
  {
    hide Attempted;
    AttemptsCount(s, a, id, times, t);
  }

  lemma PromotedEntry(env: Env, s: Tables, id: Id, origin: nat, rnd: seq<nat>)
    requires CanMakeTried(env, s, id, origin, rnd)
    ensures var t := MadeTried(env, s, id, origin, rnd);
            t.addr == s.addr && id in t.info && t.info[id] == s.info[id].(refCount := 0, inTried := true)
  {
    hide TriedBucket, Inspect, Shuffle, Refuge;
    var k := TriedBucket(env, s.info[id]);
    if |s.tried[k]| >= TRIED_SIZE {
      var r := Inspect(s.info, s.tried[k], rnd, INSPECT);
      ShuffleIn(s.tried[k], r.v, r.v[r.pos]);
    }
  }

  /** A success is recorded, and forgets the attempts before it. */
  lemma SucceededEntry(env: Env, s: Tables, a: Service, id: Id, time: int, start: nat, rnd: seq<nat>, t: Tables)
    requires Knows(s, a, id) && GoodResult(env, s, a, time, start, rnd, t)
    ensures Knows(t, a, id) && t.info[id].inTried
    ensures var i := t.info[id]; i.time == i.lastTry == i.lastSuccess == time && i.attempts == 0
  {
    hide MadeTried, CanMakeTried, FirstFrom;
    var u := SetInfo(s, id, s.info[id].(lastSuccess := time, lastTry := time, time := time, attempts := 0));
    if !s.info[id].inTried {
      var b :| FirstFrom(u.news, id, start, b) && CanMakeTried(env, u, id, b, rnd) && t == MadeTried(env, u, id, b, rnd);
      PromotedEntry(env, u, id, b, rnd);
    }
  }

  /** Main result: an entry that was reached is safe for a month, unless ten attempts in a row fail and a week
      has passed. */
  lemma ReachedEntry(env: Env, s: Tables, a: Service, id: Id, time: int, start: nat, rnd: seq<nat>, u: Tables,
                     times: seq<int>, t: Tables, now: int)
    requires Knows(s, a, id) && GoodResult(env, s, a, time, start, rnd, u) && Attempted(u, a, times, t)
    requires 0 < time <= now <= time + 30 * DAY && forall k | 0 <= k < |times| :: 0 < times[k]
    ensures Knows(t, a, id)
    ensures IsTerrible(t.info[id], now) <==>
            |times| >= 10 && now - time > 7 * DAY && now - times[|times| - 1] > MINUTE
  {
    hide Attempted, GoodResult;
    SucceededEntry(env, s, a, id, time, start, rnd, u);
    AttemptsCount(u, a, id, times, t);
  }

  /** An address that is unknown, or known with another port, changes nothing. */
  lemma StrangersIgnored(env: Env, s: Tables, a: Service, time: int, start: nat, rnd: seq<nat>, t: Tables)
    requires a.net in s.addr ==> s.addr[a.net] in s.info && s.info[s.addr[a.net]].addr != a
    ensures AttemptResult(s, a, time, t) ==> t == s
    ensures ConnectedResult(s, a, time, t) ==> t == s
    ensures GoodResult(env, s, a, time, start, rnd, t) ==> t == s
  {
    hide MadeTried, CanMakeTried, FirstFrom;
  }

  /** A connection moves the stamp only, forwards, and only by more than twenty minutes. */
  lemma ConnectedEntry(s: Tables, a: Service, id: Id, time: int, t: Tables)
    requires Knows(s, a, id) && ConnectedResult(s, a, time, t)
    ensures Knows(t, a, id)
    ensures t.info[id] == s.info[id].(time := t.info[id].time)
    ensures var was, now := s.info[id].time, t.info[id].time;
            (now != was <==> time - was > 20 * MINUTE) && (now != was ==> now == time)
  {}

  /** How many steps up from one bucket another one is, going round. */
  function StepsUp(from: nat, b: nat, size: nat): int { if from <= b then b - from else b + size - from }

  lemma CyclicPlace(size: nat, start: nat, d: nat)
    requires d < size
    ensures StepsUp(start % size, Probe(size, start, d), size) == d
  {
    var f := start % size;
    ModOf(size, if d + f < size then d + f else d + f - size);
  }

  /** The bucket a promoted entry is taken from is the first that holds it, going round from the drawn one. */
  lemma FoundFirst(news: seq<set<Id>>, id: Id, start: nat, b: nat)
    requires FirstFrom(news, id, start, b)
    ensures b < |news| && id in news[b]
    ensures forall c: nat | c < |news| && StepsUp(start % |news|, c, |news|) < StepsUp(start % |news|, b, |news|) :: id !in news[c]
  {
    hide Probe;
    var n := |news|;
    var d: nat :| b == Probe(n, start, d) && forall e: nat | e < d :: id !in news[Probe(n, start, e)];
    var d' := ProbeHits(n, start, b);
    assert d <= d';
    CyclicPlace(n, start, d);
    forall c: nat | c < n && StepsUp(start % n, c, n) < StepsUp(start % n, b, n) ensures id !in news[c]
    {
      var e := ProbeHits(n, start, c);
      CyclicPlace(n, start, e);
    }
  }

  // ---- announcements ----

  lemma ListedEntry(env: Env, s: Tables, b: nat, id: Id, now: int, n: seq<nat>, t: Tables)
    requires b < |s.news| && id in s.info && Listed(s, b, id, now, n, t) && !s.info[id].inTried
    requires id !in s.news[b] ==> Inv(env, SetInfo(s, id, s.info[id].(refCount := s.info[id].refCount + 1)), id)
    ensures id in t.info && b < |t.news| && id in t.news[b]
    ensures t.info[id] == s.info[id].(refCount := t.info[id].refCount, randomPos := t.info[id].randomPos)
    ensures t.info[id].refCount == s.info[id].refCount + (if id in s.news[b] then 0 else 1)
  {
    hide Inv, Chosen, Dropped, CanDrop;
    if id !in s.news[b] {
      var u := SetInfo(s, id, s.info[id].(refCount := s.info[id].refCount + 1));
      if |s.news[b]| == NEW_SIZE {
        var v, code :| Chosen(u.info, u.news[b], now, n, code, v) && CanDrop(u, b, v) && b < |Dropped(u, b, v).news|
                       && t == InsertNew(Dropped(u, b, v), b, id);
        ChosenIn(u.info, u.news[b], now, n, code, v);
        DropInv(env, u, b, v, id);
      }
    }
  }

  /** Main result: a first announcement makes one entry with its stamp, less the penalty but not below 0, in the new
      bucket of its address and source. */
  lemma FirstAnnouncement(env: Env, s: Tables, a: Address, source: Net, penalty: int, now: int, rnd: nat, n: seq<nat>, t: Tables)
    requires Inv(env, s, NOBODY) && a.addr.net !in s.addr
    requires AddResult(env, s, a, true, source, penalty, now, rnd, n, t)
    ensures var id := s.idCount;
            && id !in s.info && id in t.info
            && t.info[id] == Info(a.addr, a.services, Max(0, a.time - penalty), 0, source, 0, 0, 1, false, t.info[id].randomPos)
            && env.newHash(a.addr, source) % 256 < |t.news| && id in t.news[env.newHash(a.addr, source) % 256]
  {
    hide *;
    var i, id, b := Fresh(a, source, penalty), s.idCount, env.newHash(a.addr, source) % 256;
    FirstIsListed(env, s, a, source, penalty, now, rnd, n, t);
    FreshNowhere(env, s, b);
    CreatedEntry(s, i);
    FreshEntry(a, source, penalty);
    CountedFirst(env, s, i);
    ListedEntry(env, Created(s, i), b, id, now, n, t);
  }

  /** The first reference is counted before the entry is listed. */
  lemma CountedFirst(env: Env, s: Tables, i: Info)
    requires Inv(env, s, NOBODY) && i.addr.net !in s.addr
    ensures var t, id := Created(s, i), s.idCount;
            id in t.info && Inv(env, SetInfo(t, id, t.info[id].(refCount := t.info[id].refCount + 1)), id)
  {
    hide Inv;
    CreateInv(env, s, i);
  }

  lemma FirstIsListed(env: Env, s: Tables, a: Address, source: Net, penalty: int, now: int, rnd: nat, n: seq<nat>, t: Tables)
    requires a.addr.net !in s.addr && AddResult(env, s, a, true, source, penalty, now, rnd, n, t)
    ensures var b := env.newHash(a.addr, source) % 256;
            b < |s.news| && Listed(Created(s, Fresh(a, source, penalty)), b, s.idCount, now, n, t)
  {
    hide Listed;
  }

  lemma CreatedEntry(s: Tables, i: Info)
    ensures var t := Created(s, i);
            && t.news == s.news && s.idCount in t.info
            && t.info[s.idCount] == i.(refCount := 0, inTried := false, randomPos := |s.random|)
  {}

  lemma FreshEntry(a: Address, source: Net, penalty: int)
    ensures Fresh(a, source, penalty) == Info(a.addr, a.services, Max(0, a.time - penalty), 0, source, 0, 0, 0, false, -1)
  {}

  lemma FreshNowhere(env: Env, s: Tables, b: nat)
    requires Inv(env, s, NOBODY) && b < |s.news|
    ensures |s.news| == 256 && s.idCount !in s.info && s.idCount !in s.news[b]
  {}

  /** Main result: a repeated announcement adds its services and moves the stamp only when there was none or when it is
      newer by more than an hour, or by more than a day if it is itself that old, on top of the penalty; so
      stamps only grow. The entry gains a reference exactly if it is new with fewer than four, the announcement is
      newer than the stamp, the draw allows it and the bucket does not hold it yet. */
  lemma RepeatedAnnouncement(env: Env, s: Tables, id: Id, a: Address, source: Net, penalty: int, now: int, rnd: nat, n: seq<nat>, t: Tables)
    requires Inv(env, s, NOBODY) && a.addr.net in s.addr && id == s.addr[a.addr.net] && a.time >= 0
    requires AddResult(env, s, a, true, source, penalty, now, rnd, n, t)
    ensures id in s.info && id in t.info && |s.news| == 256
    ensures Heard(s.info[id], t.info[id], a, penalty, now, rnd, id in s.news[env.newHash(s.info[id].addr, source) % 256])
  {
    hide *;
    KnownEntry(env, s, a.addr.net);
    RefreshedStamp(s.info[id], a, penalty, now);
    RefreshedListing(env, s, id, a, source, penalty, now, rnd, n, t);
    HeardOf(s.info[id], t.info[id], a, penalty, now, rnd, id in s.news[env.newHash(s.info[id].addr, source) % 256]);
  }

  /** The entry before and after a repeated announcement; `held` tells whether the bucket for it has the entry. */
  ghost predicate Heard(i: Info, j: Info, a: Address, penalty: int, now: int, rnd: nat, held: bool)
  {
    var patience := penalty + (if a.time + DAY > now then HOUR else DAY);
    && j == i.(time := j.time, services := i.services | a.services, refCount := j.refCount, randomPos := j.randomPos)
    && j.time == (if a.time > 0 && (i.time == 0 || i.time + patience < a.time) then Max(0, a.time - penalty) else i.time)
    && (penalty >= 0 && i.time >= 0 ==> j.time >= i.time)
    && 0 <= i.refCount
    && j.refCount == (if Welcome(i.inTried, i.refCount, j.time, a, rnd) && !held then i.refCount + 1 else i.refCount)
  }

  /** One more reference is allowed: once in 2^n announcements for an entry with n of them. */
  ghost predicate Welcome(tried: bool, n: nat, stamp: int, a: Address, rnd: nat)
  {
    a.time > 0 && (stamp == 0 || a.time > stamp) && !tried && n < 4 && rnd % Pow2(n) == 0
  }

  lemma HeardOf(i: Info, j: Info, a: Address, penalty: int, now: int, rnd: nat, held: bool)
    requires a.time >= 0 && i.refCount >= 0
    requires j == Refreshed(i, a, penalty, now).(refCount := j.refCount, randomPos := j.randomPos)
    requires j.refCount == if Welcome(i.inTried, i.refCount, j.time, a, rnd) && !held then i.refCount + 1 else i.refCount
    ensures Heard(i, j, a, penalty, now, rnd, held)
  {
    hide Pow2;
    RefreshedStamp(i, a, penalty, now);
  }

  lemma RefreshedListing(env: Env, s: Tables, id: Id, a: Address, source: Net, penalty: int, now: int, rnd: nat, n: seq<nat>, t: Tables)
    requires Inv(env, s, NOBODY) && a.addr.net in s.addr && id == s.addr[a.addr.net] && id in s.info && a.time >= 0
    requires |s.news| == 256 && if s.info[id].inTried then s.info[id].refCount == 0 else 1 <= s.info[id].refCount <= 4
    requires AddResult(env, s, a, true, source, penalty, now, rnd, n, t)
    ensures var i := Refreshed(s.info[id], a, penalty, now);
            && id in t.info && t.info[id] == i.(refCount := t.info[id].refCount, randomPos := t.info[id].randomPos)
            && i.refCount >= 0
            && var held := id in s.news[env.newHash(i.addr, source) % 256];
               t.info[id].refCount == if Welcome(i.inTried, i.refCount, i.time, a, rnd) && !held then i.refCount + 1 else i.refCount
  {
    hide *;
    BucketOf(env, Refreshed(s.info[id], a, penalty, now), source);
    var i := Refreshed(s.info[id], a, penalty, now);
    var u := SetInfo(s, id, i);
    RefreshedStamp(s.info[id], a, penalty, now);
    RepeatedIsListed(env, s, id, a, source, penalty, now, rnd, n, t);
    SetEntry(s, id, i);
    ListableMeans(i, a, rnd);
    if Listable(i, a, rnd) {
      WelcomeRoom(i, a, rnd);
      CountedAgain(env, s, id, i);
      ListedEntry(env, u, NewBucket(env, i, source), id, now, n, t);
    }
  }

  lemma WelcomeRoom(i: Info, a: Address, rnd: nat)
    requires i.refCount >= 0 && Welcome(i.inTried, i.refCount, i.time, a, rnd)
    ensures !i.inTried && i.refCount < 4
  {}

  lemma CountedAgain(env: Env, s: Tables, id: Id, i: Info)
    requires Inv(env, s, NOBODY) && id in s.info && !i.inTried && i.refCount < 4
    requires i == s.info[id].(time := i.time, services := i.services)
    ensures Inv(env, SetInfo(SetInfo(s, id, i), id, i.(refCount := i.refCount + 1)), id)
  {
    hide Inv;
    BumpInv(env, s, id, i.(refCount := i.refCount + 1));
    assert SetInfo(SetInfo(s, id, i), id, i.(refCount := i.refCount + 1)) == SetInfo(s, id, i.(refCount := i.refCount + 1));
  }

  lemma SetEntry(s: Tables, id: Id, i: Info)
    ensures id in SetInfo(s, id, i).info && SetInfo(s, id, i).info[id] == i && SetInfo(s, id, i).news == s.news
  {}

  lemma BucketOf(env: Env, i: Info, source: Net)
    ensures NewBucket(env, i, source) == env.newHash(i.addr, source) % 256
  {}

  lemma ListableMeans(i: Info, a: Address, rnd: nat)
    requires 0 <= i.refCount <= 4 && a.time >= 0
    ensures Listable(i, a, rnd) <==> Welcome(i.inTried, i.refCount, i.time, a, rnd)
  {
    hide Pow2;
    assert Pow2(i.refCount) == 1 ==> rnd % Pow2(i.refCount) == 0;
  }

  lemma RefreshedStamp(i: Info, a: Address, penalty: int, now: int)
    requires a.time >= 0
    ensures var patience := penalty + (if a.time + DAY > now then HOUR else DAY);
            Refreshed(i, a, penalty, now) ==
            i.(services := i.services | a.services,
               time := if a.time > 0 && (i.time == 0 || i.time + patience < a.time) then Max(0, a.time - penalty) else i.time)
  {}

  lemma RepeatedIsListed(env: Env, s: Tables, id: Id, a: Address, source: Net, penalty: int, now: int, rnd: nat, n: seq<nat>, t: Tables)
    requires a.addr.net in s.addr && id == s.addr[a.addr.net] && id in s.info
    requires AddResult(env, s, a, true, source, penalty, now, rnd, n, t)
    ensures var i := Refreshed(s.info[id], a, penalty, now);
            var u := SetInfo(s, id, i);
            if Listable(i, a, rnd) then NewBucket(env, i, source) < |u.news| && Listed(u, NewBucket(env, i, source), id, now, n, t)
            else t == u
  {
    hide Listed, NewBucket, Listable, Refreshed;
  }

  lemma KnownEntry(env: Env, s: Tables, net: Net)
    requires Inv(env, s, NOBODY) && net in s.addr
    ensures s.addr[net] in s.info && |s.news| == 256
    ensures if s.info[s.addr[net]].inTried then s.info[s.addr[net]].refCount == 0 else 1 <= s.info[s.addr[net]].refCount <= 4
  {}

  // ---- which tried entry is replaced ----

  /** After n inspections the inspected entries stand at the front, the one at place k is the first of those with the
      oldest success, and the position kept is the one it was drawn from. */
  ghost predicate OldestAt(info: map<Id, Info>, r: Inspection, rnd: seq<nat>, n: nat, k: nat)
  {
    && k < n <= |r.v| && n <= |rnd| && (forall q | 0 <= q < n :: r.v[q] in info)
    && r.v[k] == r.oldest && r.pos == k + rnd[k] % (|r.v| - k)
    && forall q | 0 <= q < n :: info[r.v[k]].lastSuccess <= info[r.v[q]].lastSuccess
                                && (q < k ==> info[r.v[k]].lastSuccess < info[r.v[q]].lastSuccess)
  }

  lemma OldestKept(info: map<Id, Info>, r: Inspection, rnd: seq<nat>, i: nat, k: nat)
    requires InspectionOk(info, r) && i < |r.v| && i < |rnd|
    requires if i == 0 then r.oldest == -1 else r.oldest != -1 && OldestAt(info, r, rnd, i, k)
    ensures var t := InspectStep(info, r, i, rnd[i]);
            |t.v| == |r.v| && (OldestAt(info, t, rnd, i + 1, i) || (i > 0 && OldestAt(info, t, rnd, i + 1, k)))
  {
    var p := DrawFrom(rnd[i], |r.v|, i);
    var t := InspectStep(info, r, i, rnd[i]);
    assert r.v[p] in r.v && forall q | 0 <= q < i :: t.v[q] == r.v[q];
  }

  lemma {:induction false} OldestInspected(info: map<Id, Info>, v: seq<Id>, rnd: seq<nat>, n: nat) returns (k: nat)
    requires 0 < n <= |v| && n <= |rnd| && forall j | j in v :: j in info
    ensures OldestAt(info, Inspect(info, v, rnd, n), rnd, n, k)
  {
    hide Shuffle, InspectStep, InspectionOk, OldestAt;
    var r := Inspect(info, v, rnd, n - 1);
    k := 0;
    if n > 1 { k := OldestInspected(info, v, rnd, n - 1); }
    OldestKept(info, r, rnd, n - 1, k);
    if !OldestAt(info, Inspect(info, v, rnd, n), rnd, n, k) { k := n - 1; }
  }

  /** Main result: `SelectTried` looks for the entry with the oldest success among those it inspects, but has moved it
      when it returns the position; that position holds it if and only if it was drawn from its own place. */
  lemma SelectsOldestIff(info: map<Id, Info>, v: seq<Id>, rnd: seq<nat>, n: nat) returns (k: nat)
    requires 0 < n <= |v| && n <= |rnd| && Distinct(v) && forall j | j in v :: j in info
    ensures var r := Inspect(info, v, rnd, n);
            && OldestAt(info, r, rnd, n, k)
            && (r.v[r.pos] == r.oldest <==> rnd[k] % (|v| - k) == 0)
  {
    k := OldestInspected(info, v, rnd, n);
    hide InspectStep, InspectionOk, Inspect;
  }

  /** Two entries, of which the second succeeded longer ago: with a first draw of 1 the first one is selected. */
  lemma SelectsWrongEntry(a: Info, b: Info)
    requires b.lastSuccess < a.lastSuccess
    ensures Inspect(map[1 := a, 2 := b], [1, 2], [1, 0], 2) == Inspection([2, 1], 2, 1)
  {
    var info: map<Id, Info> := map[1 := a, 2 := b];
    var r0 := Inspect(info, [1, 2], [1, 0], 0);
    var r1 := Inspect(info, [1, 2], [1, 0], 1);
    assert r1 == InspectStep(info, r0, 0, 1);
    assert r1 == Inspection([2, 1], 2, 1);
  }

  // ---- the sizes ----

  /** The tables of a valid manager: 64 tried and 256 new buckets of at most 64 entries, and at most four of the new
      buckets hold the same entry. */
  lemma Capacity(env: Env, s: Tables, id: Id)
    requires Inv(env, s, NOBODY) && id in s.info
    ensures |s.tried| == 64 && forall b | 0 <= b < 64 :: |s.tried[b]| <= 64
    ensures |s.news| == 256 && forall b | 0 <= b < 256 :: |s.news[b]| <= 64
    ensures if s.info[id].inTried then (exists b, p | 0 <= b < 64 && 0 <= p < |s.tried[b]| :: s.tried[b][p] == id)
            else 1 <= |Holders(s.news, id)| <= 4
  {
    hide RandomOk, AddrOk, CountsOk, Holders, TriedBucket, Distinct;
    if s.info[id].inTried {
      var b := TriedBucket(env, s.info[id]);
      var p :| 0 <= p < |s.tried[b]| && s.tried[b][p] == id;
    }
  }

  /** Main result: a promoted entry joins the tried bucket of its address, and if that holds 64 entries it takes the
      place selected by four draws; the entry that stood there goes to the new bucket of its address and
      source if that has room, otherwise to the bucket the promoted entry was found in. */
  lemma PromotionPlace(env: Env, s: Tables, id: Id, origin: nat, rnd: seq<nat>)
    requires CanMakeTried(env, s, id, origin, rnd)
    ensures var k, t := env.triedHash(s.info[id].addr) % 64, MadeTried(env, s, id, origin, rnd);
            && |s.tried| == 64 && |s.news| == |t.news| == 256
            && if |s.tried[k]| < 64 then
                 t.tried == s.tried[k := s.tried[k] + [id]] && forall b | 0 <= b < 256 :: t.news[b] == s.news[b] - {id}
               else
                 && |rnd| >= 4
                 && var r := Inspect(s.info, s.tried[k], rnd, 4);
                    var out := r.v[r.pos];
                    && t.tried == s.tried[k := r.v[r.pos := id]] && out in s.info
                    && var own := env.newHash(s.info[out].addr, s.info[out].source) % 256;
                       var home := if |s.news[own] - {id}| < 64 then own else origin;
                       forall b | 0 <= b < 256 :: t.news[b] == s.news[b] - {id} + (if b == home then {out} else {})
  {
    hide Inspect, Shuffle;
    var k := TriedBucket(env, s.info[id]);
    if |s.tried[k]| >= TRIED_SIZE {
      var r := Inspect(s.info, s.tried[k], rnd, INSPECT);
      ShuffleIn(s.tried[k], r.v, r.v[r.pos]);
    }
  }
}
