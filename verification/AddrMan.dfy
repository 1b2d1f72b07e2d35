/** The address manager (`CAddrMan`): its redundant indexes and the operations that change them.
    Random draws and clock readings are arguments; bucket numbers come from keyed hashes, kept abstract. */
module AddrMan {
  import opened Basics

  type Id = nat
  type Net = nat

  const TRIED_BUCKETS: nat := 64
  const TRIED_SIZE: nat := 64
  const NEW_BUCKETS: nat := 256
  const NEW_SIZE: nat := 64
  const MAX_REFS: nat := 4
  const INSPECT: nat := 4
  const HORIZON: int := 30 * 86400
  const RETRIES: int := 3
  const MAX_FAILURES: int := 10
  const MIN_FAIL: int := 7 * 86400
  const GETADDR_PCT: nat := 23
  const GETADDR_MAX: nat := 2500

  datatype Service = Service(net: Net, port: nat)

  /** `CAddrInfo`; `lastTry` and the last three fields are memory-only. */
  datatype Info = Info(
    addr: Service, services: bv64, time: int, lastTry: int, source: Net, lastSuccess: int, attempts: int,
    refCount: int, inTried: bool, randomPos: int)

  /** The keyed hashes that pick buckets. */
  datatype Env = Env(triedHash: Service -> nat, newHash: (Service, Net) -> nat)

  function TriedBucket(env: Env, i: Info): (b: nat)
    ensures b < TRIED_BUCKETS
  {
    env.triedHash(i.addr) % TRIED_BUCKETS
  }

  function NewBucket(env: Env, i: Info, src: Net): (b: nat)
    ensures b < NEW_BUCKETS
  {
    env.newHash(i.addr, src) % NEW_BUCKETS
  }

  predicate IsTerrible(i: Info, now: int)
  {
    !(i.lastTry != 0 && i.lastTry >= now - 60) &&
    (|| i.time > now + 600
     || i.time == 0 || now - i.time > HORIZON
     || (i.lastSuccess == 0 && i.attempts >= RETRIES)
     || (now - i.lastSuccess > MIN_FAIL && i.attempts >= MAX_FAILURES))
  }

  datatype Tables = Tables(
    idCount: nat, info: map<Id, Info>, addr: map<Net, Id>, random: seq<Id>,
    nTried: int, tried: seq<seq<Id>>, nNew: int, news: seq<set<Id>>)

  function EmptyTables(): Tables
  {
    Tables(0, map[], map[], [], 0, seq(TRIED_BUCKETS, _ => []), 0, seq(NEW_BUCKETS, _ => {}))
  }

  // ---- the operations as functions of the tables ----

  /** A new entry, in no bucket yet. */
  function Created(s: Tables, i: Info): Tables
  {
    s.(idCount := s.idCount + 1,
       info := s.info[s.idCount := i.(refCount := 0, inTried := false, randomPos := |s.random|)],
       addr := s.addr[i.addr.net := s.idCount],
       random := s.random + [s.idCount],
       nNew := s.nNew + 1)
  }

  function SetInfo(s: Tables, id: Id, i: Info): Tables { s.(info := s.info[id := i]) }

  predicate CanSwap(s: Tables, p: nat, q: nat)
  {
    p < |s.random| && q < |s.random| && s.random[p] in s.info && s.random[q] in s.info
  }

  function Swapped(s: Tables, p: nat, q: nat): Tables
    requires CanSwap(s, p, q)
  {
    if p == q then s
    else
      var a, b := s.random[p], s.random[q];
      var info := s.info[a := s.info[a].(randomPos := q)];
      s.(info := info[b := info[b].(randomPos := p)], random := s.random[p := b][q := a])
  }

  /** Remove an entry altogether: swap it to the end of the random vector and pop it. */
  function Erased(s: Tables, id: Id): Tables
    requires id in s.info && 0 <= s.info[id].randomPos && |s.random| > 0 && CanSwap(s, s.info[id].randomPos, |s.random| - 1)
  {
    var net := s.info[id].addr.net;
    var t := Swapped(s, s.info[id].randomPos, |s.random| - 1);
    t.(random := t.random[..|t.random| - 1], addr := t.addr - {net}, info := t.info - {id}, nNew := t.nNew - 1)
  }

  predicate CanDrop(s: Tables, b: nat, id: Id)
  {
    && b < |s.news| && id in s.info
    && (s.info[id].refCount == 1 ==>
          0 <= s.info[id].randomPos && |s.random| > 0 && CanSwap(s, s.info[id].randomPos, |s.random| - 1))
  }

  /** Take one reference to an entry out of a new bucket, erasing the entry with its last reference. */
  function Dropped(s: Tables, b: nat, id: Id): Tables
    requires CanDrop(s, b, id)
  {
    var i := s.info[id];
    var t := SetInfo(s, id, i.(refCount := i.refCount - 1));
    var u := if i.refCount == 1 then Erased(t, id) else t;
    u.(news := u.news[b := u.news[b] - {id}])
  }

  function InsertNew(s: Tables, b: nat, id: Id): Tables
    requires b < |s.news|
  {
    s.(news := s.news[b := s.news[b] + {id}])
  }

  /** The new buckets without an entry. */
  function Without(news: seq<set<Id>>, id: Id): (r: seq<set<Id>>)
    ensures |r| == |news| && forall b | 0 <= b < |news| :: r[b] == news[b] - {id}
  {
    seq(|news|, b requires 0 <= b < |news| => news[b] - {id})
  }

  /** First half of `MakeTried`: out of every new bucket. */
  function Unlisted(s: Tables, id: Id): Tables
    requires id in s.info
  {
    s.(news := Without(s.news, id), info := s.info[id := s.info[id].(refCount := 0)], nNew := s.nNew - 1)
  }

  /** Second half, with room in the tried bucket. */
  function Promoted(s: Tables, k: nat, id: Id): Tables
    requires id in s.info && k < |s.tried|
  {
    s.(tried := s.tried[k := s.tried[k] + [id]], nTried := s.nTried + 1,
       info := s.info[id := s.info[id].(inTried := true)])
  }

  /** Second half, replacing the entry at position `pos` of the tried bucket, which goes to new bucket `u`. */
  function Replaced(s: Tables, k: nat, pos: nat, id: Id, u: nat): Tables
    requires id in s.info && k < |s.tried| && pos < |s.tried[k]| && s.tried[k][pos] in s.info && u < |s.news|
  {
    var out := s.tried[k][pos];
    var info := s.info[out := s.info[out].(inTried := false, refCount := 1)];
    var bucket: seq<Id> := s.tried[k][pos := id];
    s.(tried := s.tried[k := bucket],
       news := s.news[u := s.news[u] + {out}], nNew := s.nNew + 1,
       info := info[id := info[id].(inTried := true)])
  }

  // ---- the invariant (what `Check_` checks, and more) ----

  function Holders(news: seq<set<Id>>, id: Id): set<nat> { set b | 0 <= b < |news| && id in news[b] }

  /** The random vector and the stored positions are mutually inverse. */
  ghost predicate RandomOk(info: map<Id, Info>, random: seq<Id>)
  {
    && (forall id | id in info :: 0 <= info[id].randomPos < |random| && random[info[id].randomPos] == id)
    && (forall p | 0 <= p < |random| :: random[p] in info && info[random[p]].randomPos == p)
  }

  /** The address index and the entries are mutually inverse. */
  ghost predicate AddrOk(info: map<Id, Info>, addr: map<Net, Id>)
  {
    && (forall id | id in info :: info[id].addr.net in addr && addr[info[id].addr.net] == id)
    && (forall n | n in addr :: addr[n] in info && info[addr[n]].addr.net == n)
  }

  /** New buckets hold only entries that are not tried, and reference counts are exact, except that
      entry `x` may have been counted once more than it is listed. */
  ghost predicate NewOk(info: map<Id, Info>, news: seq<set<Id>>, x: int)
  {
    && |news| == NEW_BUCKETS
    && (forall b | 0 <= b < |news| :: |news[b]| <= NEW_SIZE)
    && (forall b, id | 0 <= b < |news| && id in news[b] :: id in info && !info[id].inTried)
    && (forall id | id in info && !info[id].inTried ::
          info[id].refCount == |Holders(news, id)| + (if id == x then 1 else 0) && 1 <= info[id].refCount <= MAX_REFS)
  }

  /** Tried entries stand exactly once, in their own bucket, and have no references. */
  ghost predicate TriedOk(env: Env, info: map<Id, Info>, tried: seq<seq<Id>>)
  {
    && |tried| == TRIED_BUCKETS
    && (forall b | 0 <= b < |tried| :: |tried[b]| <= TRIED_SIZE && Distinct(tried[b]))
    && (forall b, id | 0 <= b < |tried| && id in tried[b] :: id in info && info[id].inTried && TriedBucket(env, info[id]) == b)
    && (forall id | id in info && info[id].inTried :: info[id].refCount == 0 && id in tried[TriedBucket(env, info[id])])
  }

  function NewIds(info: map<Id, Info>): set<Id> { set id | id in info && !info[id].inTried }
  function TriedIds(info: map<Id, Info>): set<Id> { set id | id in info && info[id].inTried }

  ghost predicate CountsOk(info: map<Id, Info>, nNew: int, nTried: int, idCount: nat)
  {
    && nNew == |NewIds(info)| && nTried == |TriedIds(info)|
    && (forall id | id in info :: id < idCount)
  }

  const NOBODY: int := -1

  ghost predicate Inv(env: Env, s: Tables, x: int)
  {
    && RandomOk(s.info, s.random) && AddrOk(s.info, s.addr) && NewOk(s.info, s.news, x)
    && TriedOk(env, s.info, s.tried) && CountsOk(s.info, s.nNew, s.nTried, s.idCount)
  }
}
