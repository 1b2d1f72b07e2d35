/** Every run of the address manager's operations, restarts included: the invariant and sound statistics are
    kept, so the program's own consistency check reports nothing. */
module AddrManRuns {
  import opened Basics
  import opened AddrMan
  import opened AddrManInv
  import opened AddrManOps
  import opened AddrManDisk
  import opened AddrManCheck

  datatype Op =
    | AddOp(announced: Address, routable: bool, source: Net, penalty: int, now: int, rnd: nat, four: seq<nat>)
    | GoodOp(addr: Service, time: int, start: nat, draws: seq<nat>)
    | AttemptOp(addr: Service, time: int)
    | ConnectedOp(addr: Service, time: int)
    | GetAddrOp(draws: seq<nat>)
    | RestartOp
  {
    /** Enough random draws, as the methods ask for. */
    predicate Callable()
    {
      match this
      case AddOp(_, _, _, _, _, _, n) => |n| == 4
      case GoodOp(_, _, _, rnd) => |rnd| >= INSPECT
      case GetAddrOp(rnd) => |rnd| >= GETADDR_MAX
      case _ => true
    }

    /** Clock readings are positive. */
    predicate Timely()
    {
      match this
      case GoodOp(_, time, _, _) => time > 0
      case AttemptOp(_, time) => time > 0
      case _ => true
    }
  }

  /** What the methods of `Manager`, and saving and loading, promise, operation by operation. */
  ghost predicate Performed(env: Env, s: Tables, op: Op, t: Tables)
  {
    && op.Callable()
    && match op
       case AddOp(a, routable, source, penalty, now, rnd, n) => AddResult(env, s, a, routable, source, penalty, now, rnd, n, t)
       case GoodOp(a, time, start, rnd) => GoodResult(env, s, a, time, start, rnd, t)
       case AttemptOp(a, time) => AttemptResult(s, a, time, t)
       case ConnectedOp(a, time) => ConnectedResult(s, a, time, t)
       case GetAddrOp(rnd) => ShuffledBy(s, rnd, Share(|s.random|)) == Some(t)
       case RestartOp => Isomorphic(s, Order(s.info), t)
  }

  // ---- the invariant ----

  lemma AddedInv(env: Env, s: Tables, a: Address, source: Net, penalty: int, now: int, n: seq<nat>, t: Tables)
    requires Inv(env, s, NOBODY) && a.addr.net !in s.addr && AddedSpec(env, s, a, source, penalty, now, n, t)
    ensures Inv(env, t, NOBODY)
  {
    hide Inv, Listed, NewBucket;
    var i := Fresh(a, source, penalty);
    BucketsFit(env, s, NOBODY);
    NobodyYet(env, s);
    CreateInv(env, s, i);
    ListedInv(env, Created(s, i), NewBucket(env, i, source), s.idCount, now, n, t);
  }

  lemma SeenInv(env: Env, s: Tables, id: Id, a: Address, source: Net, penalty: int, now: int, rnd: nat, n: seq<nat>, t: Tables)
    requires Inv(env, s, NOBODY) && id in s.info && SeenSpec(env, s, id, a, source, penalty, now, rnd, n, t)
    ensures Inv(env, t, NOBODY)
  {
    hide Inv, Listed, NewBucket;
    var i := Refreshed(s.info[id], a, penalty, now);
    var u := SetInfo(s, id, i);
    TouchInv(env, s, id, i, NOBODY);
    if Listable(i, a, rnd) {
      BucketsFit(env, u, NOBODY);
      RoomForMore(env, u, id);
      BumpInv(env, u, id, i.(refCount := i.refCount + 1));
      ListedInv(env, u, NewBucket(env, i, source), id, now, n, t);
    }
  }

  lemma GoodInv(env: Env, s: Tables, id: Id, a: Service, time: int, start: nat, rnd: seq<nat>, t: Tables)
    requires Inv(env, s, NOBODY) && id in s.info && |rnd| >= INSPECT && GoodSpec(env, s, id, a, time, start, rnd, t)
    ensures Inv(env, t, NOBODY)
  {
    hide Inv, MadeTried, CanMakeTried, FirstFrom;
    if s.info[id].addr == a {
      var i := s.info[id].(lastSuccess := time, lastTry := time, time := time, attempts := 0);
      var u := SetInfo(s, id, i);
      TouchInv(env, s, id, i, NOBODY);
      if !s.info[id].inTried {
        var b :| FirstFrom(u.news, id, start, b) && CanMakeTried(env, u, id, b, rnd) && t == MadeTried(env, u, id, b, rnd);
        FirstFromIn(u.news, id, start, b);
        BucketsFit(env, u, NOBODY);
        MadeTriedInv(env, u, id, b, rnd);
      }
    }
  }

  lemma {:induction false} ShuffledInv(env: Env, s: Tables, rnd: seq<nat>, m: nat, t: Tables)
    requires Inv(env, s, NOBODY) && m <= |rnd| && ShuffledBy(s, rnd, m) == Some(t)
    ensures Inv(env, t, NOBODY) && Moved(s.info, t.info)
    decreases m
  {
    hide Inv, Moved, Swapped, CanSwap, DrawFrom;
    if m == 0 {
      MovedSelf(s.info);
    } else {
      var u := ShuffledBy(s, rnd, m - 1).value;
      ShuffledInv(env, s, rnd, m - 1, u);
      SwapInv(env, u, m - 1, DrawFrom(rnd[m - 1], |u.random|, m - 1), NOBODY);
      MovedTwice(s.info, u.info, t.info);
    }
  }

  lemma PerformedInv(env: Env, s: Tables, op: Op, t: Tables)
    requires Inv(env, s, NOBODY) && Performed(env, s, op, t)
    ensures Inv(env, t, NOBODY)
  {
    hide Inv, AddedSpec, SeenSpec, GoodSpec, ShuffledBy, Isomorphic, Order;
    match op
    case AddOp(a, routable, source, penalty, now, rnd, n) =>
      if routable && a.addr.net !in s.addr {
        AddedInv(env, s, a, source, penalty, now, n, t);
      } else if routable {
        SeenInv(env, s, s.addr[a.addr.net], a, source, penalty, now, rnd, n, t);
      }
    case GoodOp(a, time, start, rnd) =>
      if a.net in s.addr { GoodInv(env, s, s.addr[a.net], a, time, start, rnd, t); }
    case AttemptOp(a, time) =>
      if a.net in s.addr {
        var i := s.info[s.addr[a.net]];
        TouchInv(env, s, s.addr[a.net], i.(lastTry := time, attempts := i.attempts + 1), NOBODY);
      }
    case ConnectedOp(a, time) =>
      if a.net in s.addr { TouchInv(env, s, s.addr[a.net], s.info[s.addr[a.net]].(time := time), NOBODY); }
    case GetAddrOp(rnd) =>
      ShuffledInv(env, s, rnd, Share(|s.random|), t);
    case RestartOp =>
      IsoInv(env, s, Order(s.info), t);
  }

  // ---- the statistics ----

  /** No entry is new, and the statistics of those that remain are the same. */
  ghost predicate StatsKept(a: map<Id, Info>, b: map<Id, Info>)
  {
    forall j | j in b :: j in a && b[j].inTried == a[j].inTried && b[j].lastTry == a[j].lastTry && b[j].lastSuccess == a[j].lastSuccess
  }

  lemma KeptStats(a: map<Id, Info>, b: map<Id, Info>)
    requires StatsKept(a, b) && AllStatsOk(a)
    ensures AllStatsOk(b)
  {}

  lemma KeptTwice(a: map<Id, Info>, b: map<Id, Info>, c: map<Id, Info>)
    requires StatsKept(a, b) && StatsKept(b, c)
    ensures StatsKept(a, c)
  {}

  lemma MovedKept(a: map<Id, Info>, b: map<Id, Info>, id: Id)
    requires Moved(a, b)
    ensures StatsKept(a, b) && StatsKept(a, b - {id})
  {}

  lemma RecountKept(a: map<Id, Info>, id: Id, r: int)
    requires id in a
    ensures StatsKept(a, a[id := a[id].(refCount := r)])
  {}

  lemma DroppedKept(s: Tables, b: nat, id: Id)
    requires CanDrop(s, b, id)
    ensures StatsKept(s.info, Dropped(s, b, id).info)
  {
    hide StatsKept, Moved;
    RecountKept(s.info, id, s.info[id].refCount - 1);
    if s.info[id].refCount == 1 {
      var t := SetInfo(s, id, s.info[id].(refCount := 0));
      var p, q := t.info[id].randomPos, |t.random| - 1;
      SwapMoves(t, p, q);
      MovedKept(t.info, Swapped(t, p, q).info, id);
      KeptTwice(s.info, t.info, Swapped(t, p, q).info - {id});
    }
  }

  lemma ListedKept(s: Tables, b: nat, id: Id, now: int, n: seq<nat>, t: Tables)
    requires b < |s.news| && id in s.info && Listed(s, b, id, now, n, t)
    ensures StatsKept(s.info, t.info)
  {
    hide Dropped, CanDrop, Chosen;
    if id !in s.news[b] {
      var u := SetInfo(s, id, s.info[id].(refCount := s.info[id].refCount + 1));
      RecountKept(s.info, id, s.info[id].refCount + 1);
      if |s.news[b]| == NEW_SIZE {
        var v, code :| Chosen(u.info, u.news[b], now, n, code, v) && CanDrop(u, b, v) && b < |Dropped(u, b, v).news|
                       && t == InsertNew(Dropped(u, b, v), b, id);
        DroppedKept(u, b, v);
        KeptTwice(s.info, u.info, t.info);
      }
    }
  }

  lemma OneStat(a: map<Id, Info>, id: Id, i: Info)
    requires AllStatsOk(a) && StatsOk(i)
    ensures AllStatsOk(a[id := i])
  {}

  lemma AddedStats(env: Env, s: Tables, a: Address, source: Net, penalty: int, now: int, n: seq<nat>, t: Tables)
    requires AllStatsOk(s.info) && AddedSpec(env, s, a, source, penalty, now, n, t)
    ensures AllStatsOk(t.info)
  {
    hide AllStatsOk, Listed, NewBucket;
    var i := Fresh(a, source, penalty);
    var u := Created(s, i);
    OneStat(s.info, s.idCount, u.info[s.idCount]);
    ListedKept(u, NewBucket(env, i, source), s.idCount, now, n, t);
    KeptStats(u.info, t.info);
  }

  lemma SeenStats(env: Env, s: Tables, id: Id, a: Address, source: Net, penalty: int, now: int, rnd: nat, n: seq<nat>, t: Tables)
    requires AllStatsOk(s.info) && id in s.info && SeenSpec(env, s, id, a, source, penalty, now, rnd, n, t)
    ensures AllStatsOk(t.info)
  {
    hide Listed, NewBucket;
    var i := Refreshed(s.info[id], a, penalty, now);
    var u := SetInfo(s, id, i);
    assert StatsOk(s.info[id]);
    OneStat(s.info, id, i);
    if Listable(i, a, rnd) {
      ListedKept(u, NewBucket(env, i, source), id, now, n, t);
      KeptStats(u.info, t.info);
    }
  }

  /** Promotion leaves everybody's statistics alone; the promoted entry has just had its success. */
  lemma MadeTriedStats(env: Env, s: Tables, id: Id, origin: nat, rnd: seq<nat>)
    requires CanMakeTried(env, s, id, origin, rnd) && AllStatsOk(s.info) && s.info[id].lastSuccess > 0
    ensures AllStatsOk(MadeTried(env, s, id, origin, rnd).info)
  {
    hide TriedBucket, Inspect, Shuffle, Refuge, NewBucket;
    var k := TriedBucket(env, s.info[id]);
    if |s.tried[k]| >= TRIED_SIZE {
      var r := Inspect(s.info, s.tried[k], rnd, INSPECT);
      assert r.v[r.pos] in r.v;
    }
  }

  lemma GoodStats(env: Env, s: Tables, id: Id, a: Service, time: int, start: nat, rnd: seq<nat>, t: Tables)
    requires AllStatsOk(s.info) && id in s.info && time > 0 && GoodSpec(env, s, id, a, time, start, rnd, t)
    ensures AllStatsOk(t.info)
  {
    hide MadeTried, CanMakeTried, FirstFrom, AllStatsOk;
    if s.info[id].addr == a {
      var i := s.info[id].(lastSuccess := time, lastTry := time, time := time, attempts := 0);
      var u := SetInfo(s, id, i);
      OneStat(s.info, id, i);
      if !s.info[id].inTried {
        var b :| FirstFrom(u.news, id, start, b) && CanMakeTried(env, u, id, b, rnd) && t == MadeTried(env, u, id, b, rnd);
        MadeTriedStats(env, u, id, b, rnd);
      }
    }
  }

  lemma PerformedStats(env: Env, s: Tables, op: Op, t: Tables)
    requires Inv(env, s, NOBODY) && AllStatsOk(s.info) && Performed(env, s, op, t) && op.Timely()
    ensures AllStatsOk(t.info)
  {
    hide Inv, AddedSpec, SeenSpec, GoodSpec, ShuffledBy, Isomorphic, Order;
    match op
    case AddOp(a, routable, source, penalty, now, rnd, n) =>
      if routable && a.addr.net !in s.addr {
        AddedStats(env, s, a, source, penalty, now, n, t);
      } else if routable {
        SeenStats(env, s, s.addr[a.addr.net], a, source, penalty, now, rnd, n, t);
      }
    case GoodOp(a, time, start, rnd) =>
      if a.net in s.addr { GoodStats(env, s, s.addr[a.net], a, time, start, rnd, t); }
    case AttemptOp(a, time) =>
    case ConnectedOp(a, time) =>
    case GetAddrOp(rnd) =>
      ShuffledInv(env, s, rnd, Share(|s.random|), t);
      MovedKept(s.info, t.info, 0);
      KeptStats(s.info, t.info);
    case RestartOp =>
      RestartStats(s, Order(s.info), t);
  }

  lemma RestartStats(s: Tables, order: seq<Id>, t: Tables)
    requires AllStatsOk(s.info) && Isomorphic(s, order, t)
    ensures AllStatsOk(t.info)
  {
    hide Lists, SameAddresses, Elements, Positions, BucketSet;
    forall m | m in t.info ensures StatsOk(t.info[m])
    {
      assert StatsOk(s.info[order[m]]);
    }
  }

  // ---- every run ----

  /** The states of a run from an empty manager, one operation after the other. */
  ghost predicate Run(env: Env, ops: seq<Op>, states: seq<Tables>)
  {
    && |states| == |ops| + 1 && states[0] == EmptyTables()
    && forall i | 0 <= i < |ops| :: Performed(env, states[i], ops[i], states[i + 1])
  }

  lemma EmptyInv(env: Env)
    ensures Inv(env, EmptyTables(), NOBODY)
  {}

  /** Main result: every run of the operations keeps the invariant, and with positive clock readings the
      statistics stay sound. */
  lemma {:induction false} EveryRun(env: Env, ops: seq<Op>, states: seq<Tables>)
    requires Run(env, ops, states)
    ensures Inv(env, states[|ops|], NOBODY)
    ensures (forall i | 0 <= i < |ops| :: ops[i].Timely()) ==> AllStatsOk(states[|ops|].info)
    decreases |ops|
  {
    hide Inv, Performed;
    if ops == [] {
      EmptyInv(env);
    } else {
      var n := |ops| - 1;
      assert Run(env, ops[..n], states[..n + 1]) by {
        forall i | 0 <= i < n ensures Performed(env, states[..n + 1][i], ops[..n][i], states[..n + 1][i + 1]) {}
      }
      EveryRun(env, ops[..n], states[..n + 1]);
      assert Performed(env, states[n], ops[n], states[n + 1]);
      PerformedInv(env, states[n], ops[n], states[n + 1]);
      if forall i | 0 <= i < |ops| :: ops[i].Timely() { PerformedStats(env, states[n], ops[n], states[n + 1]); }
    }
  }

  /** After every run with positive clock readings the program's own check reports 0. */
  method CheckAfterRun(env: Env, ghost ops: seq<Op>, s: Tables, ghost states: seq<Tables>) returns (code: int)
    requires Run(env, ops, states) && s == states[|ops|] && forall i | 0 <= i < |ops| :: ops[i].Timely()
    ensures code == 0
  {
    hide Inv, Run, AllStatsOk;
    EveryRun(env, ops, states);
    code := Check(env, s);
  }
}
