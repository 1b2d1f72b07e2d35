/** The script-check queue (`CCheckQueue`): a master and any number of workers share a stack of checks
    under one mutex. Each critical section is one atomic step; the steps of different threads interleave
    arbitrarily, and condition variables may also wake a thread for no reason. */
module CheckQueue {
  import opened Basics

  type Check = nat

  /** The fields protected by the mutex. */
  datatype Shared = Shared(
    queue: seq<Check>, nIdle: int, nTotal: int, fAllOk: bool, nTodo: int, fQuit: bool, nBatchSize: nat)

  /** Where a thread is: not in `Loop`, blocked on its condition variable, or executing a batch. */
  datatype Thread = Outside | Waiting(signalled: bool) | Running(batch: seq<Check>, startOk: bool)

  /** How a thread got the mutex: first iteration, woken up, or with a finished batch. */
  datatype Entry = First | Woken | Done(count: nat, ok: bool)

  datatype Outcome = Return(result: bool) | Sleep | Take(batch: seq<Check>, startOk: bool)

  function Div(a: nat, b: int): int { if b == 0 then 0 else a / b }

  /** How many checks to take now. */
  function BatchCount(q: Shared): int
  {
    Max(1, Min(q.nBatchSize, Div(|q.queue|, q.nTotal + q.nIdle + 1)))
  }

  /** The clean-up at the start of a critical section. */
  function Cleanup(q: Shared, entry: Entry): Shared
  {
    match entry
    case First => q.(nTotal := q.nTotal + 1)
    case Woken => q.(nIdle := q.nIdle - 1)
    case Done(n, ok) => q.(fAllOk := q.fAllOk && ok, nTodo := q.nTodo - n)
  }

  /** The rest of it: return, sleep, or take a batch from the back of the stack
      (`BatchFits` shows that the bound by the stack size is never needed). */
  function Proceed(q: Shared, master: bool): (Shared, Outcome)
  {
    if q.queue == [] then
      if (master || q.fQuit) && q.nTodo == 0 then
        (q.(nTotal := q.nTotal - 1, fAllOk := master || q.fAllOk), Return(q.fAllOk))
      else (q.(nIdle := q.nIdle + 1), Sleep)
    else
      var n := Min(BatchCount(q), |q.queue|);
      var rest := |q.queue| - n;
      (q.(queue := q.queue[..rest]), Take(Reversed(q.queue[rest..]), q.fAllOk))
  }

  /** The batch never exceeds the stack, so taking it cannot pop an empty stack. */
  lemma BatchFits(q: Shared)
    requires q.queue != [] && q.nTotal >= 0 && q.nIdle >= 0
    ensures 1 <= BatchCount(q) <= |q.queue|
  {
    var d := q.nTotal + q.nIdle + 1;
    assert Div(|q.queue|, d) <= |q.queue|;
  }

  /** A batch is the largest that leaves as much for every other thread, running or idle, up to the size limit, but
      never less than one check. */
  lemma BatchIsShare(q: Shared)
    requires q.nTotal >= 0 && q.nIdle >= 0
    ensures var n, d := BatchCount(q), q.nTotal + q.nIdle + 1;
            && n >= 1 && (n > 1 ==> n * d <= |q.queue| && n <= q.nBatchSize)
            && (n < q.nBatchSize ==> (n + 1) * d > |q.queue|)
  {
    var d, size := q.nTotal + q.nIdle + 1, |q.queue|;
    var k := Div(size, d);
    assert k * d <= size < k * d + d;
    assert (k + 1) * d == k * d + d;
    var n := BatchCount(q);
    if 1 < n < k { Scaled(n, k, d); }
    if k < n { Scaled(k + 1, n + 1, d); }
  }

  lemma Scaled(a: int, b: int, d: int)
    requires a <= b && d >= 0
    ensures a * d <= b * d
  {}

  /** The queue object; each method is one critical section of the source, or the batch execution. */
  class Queue {
    var queue: seq<Check>
    var nIdle: int
    var nTotal: int
    var fAllOk: bool
    var nTodo: int
    var fQuit: bool
    var nBatchSize: nat

    ghost function Value(): Shared reads this { Shared(queue, nIdle, nTotal, fAllOk, nTodo, fQuit, nBatchSize) }

    constructor (batchSize: nat)
      ensures Value() == EmptyQueue(batchSize)
    {
      queue, nIdle, nTotal, fAllOk, nTodo, fQuit, nBatchSize := [], 0, 0, true, 0, false, batchSize;
    }

    method Add(checks: seq<Check>)
      modifies this
      ensures Value() == old(Value()).(queue := old(queue) + checks, nTodo := old(nTodo) + |checks|)
    {
      for i := 0 to |checks|
        invariant queue == old(queue) + checks[..i]
        invariant Value() == old(Value()).(queue := queue)
      {
        queue := queue + [checks[i]];
      }
      nTodo := nTodo + |checks|;
    }

    /** One pass of `Loop` while holding the mutex. */
    method Section(master: bool, entry: Entry) returns (outcome: Outcome)
      requires nTotal >= 0 && nIdle >= (if entry.Woken? then 1 else 0)
      modifies this
      ensures (Value(), outcome) == Proceed(Cleanup(old(Value()), entry), master)
    {
      match entry {
        case First => nTotal := nTotal + 1;
        case Woken => nIdle := nIdle - 1;
        case Done(n, ok) => fAllOk := fAllOk && ok; nTodo := nTodo - n;
      }
      outcome := Continue(master);
    }

    method Continue(master: bool) returns (outcome: Outcome)
      requires nTotal >= 0 && nIdle >= 0
      modifies this
      ensures (Value(), outcome) == Proceed(old(Value()), master)
    {
      if queue == [] {
        if (master || fQuit) && nTodo == 0 {
          nTotal := nTotal - 1;
          outcome := Return(fAllOk);
          if master { fAllOk := true; }
          return;
        }
        nIdle := nIdle + 1;
        return Sleep;
      }
      BatchFits(Value());
      hide BatchCount;
      var taken := TakeBatch(BatchCount(Shared(queue, nIdle, nTotal, fAllOk, nTodo, fQuit, nBatchSize)));
      outcome := Take(taken, fAllOk);
    }

    method TakeBatch(n: int) returns (batch: seq<Check>)
      requires 0 <= n <= |queue|
      modifies this`queue
      ensures queue == old(queue)[..|old(queue)| - n]
      ensures batch == Reversed(old(queue)[|old(queue)| - n..])
    {
      batch := [];
      for i := 0 to n
        invariant queue == old(queue)[..|old(queue)| - i]
        invariant batch == Reversed(old(queue)[|old(queue)| - i..])
      {
        batch := batch + [queue[|queue| - 1]];
        queue := queue[..|queue| - 1];
      }
    }

    /** Executes a batch; after a failure the remaining checks are skipped. */
    method Execute(ok: Check -> bool, batch: seq<Check>, startOk: bool) returns (fOk: bool)
      ensures fOk <==> startOk && forall i | 0 <= i < |batch| :: ok(batch[i])
    {
      fOk := startOk;
      for i := 0 to |batch|
        invariant fOk <==> startOk && forall j | 0 <= j < i :: ok(batch[j])
      {
        if fOk { fOk := ok(batch[i]); }
      }
    }
  }

  const MASTER: nat := 0

  function EmptyQueue(batchSize: nat): Shared { Shared([], 0, 0, true, 0, false, batchSize) }

  // ---- the protocol ----

  /** Thread 0 is the master. `added` and `finished` are the history since the last return of `Wait`. */
  datatype State = State(q: Shared, threads: seq<Thread>, added: multiset<Check>, finished: multiset<Check>)

  datatype Event =
    | Add(checks: seq<Check>, woken: set<nat>)
    | Enter(t: nat)
    | Wake(t: nat)
    | Finish(t: nat)

  function Signal(ts: seq<Thread>, woken: set<nat>): (r: seq<Thread>)
    ensures |r| == |ts|
    ensures forall i | 0 <= i < |ts| :: r[i] == if i in woken && ts[i].Waiting? then Waiting(true) else ts[i]
  {
    seq(|ts|, i requires 0 <= i < |ts| => if i in woken && ts[i].Waiting? then Waiting(true) else ts[i])
  }

  predicate Enabled(s: State, e: Event)
    requires s.threads != []
  {
    match e
    // only the master adds, and not while it is in Wait; notifications go to workers
    case Add(_, woken) => s.threads[MASTER].Outside? && MASTER !in woken
    case Enter(t) => t < |s.threads| && s.threads[t].Outside?
    case Wake(t) => t < |s.threads| && s.threads[t].Waiting?
    case Finish(t) => t < |s.threads| && s.threads[t].Running?
  }

  predicate AllOk(ok: Check -> bool, cs: seq<Check>) { forall i | 0 <= i < |cs| :: ok(cs[i]) }

  function EntryOf(ok: Check -> bool, th: Thread): Entry
  {
    match th
    case Outside => First
    case Waiting(_) => Woken
    case Running(b, startOk) => Done(|b|, startOk && AllOk(ok, b))
  }

  function ThreadAfter(out: Outcome): Thread
  {
    match out
    case Return(_) => Outside
    case Sleep => Waiting(false)
    case Take(b, startOk) => Running(b, startOk)
  }

  /** The checks a thread holds. */
  function WorkOf(th: Thread): multiset<Check> { if th.Running? then multiset(th.batch) else multiset{} }

  /** The last worker to finish notifies the master. */
  predicate Notifies(ok: Check -> bool, s: State, t: nat)
    requires t < |s.threads|
  {
    s.threads[t].Running? && t != MASTER && Cleanup(s.q, EntryOf(ok, s.threads[t])).nTodo == 0
  }

  /** The state after thread `t` runs one critical section, and how the section ended. */
  function Locked(ok: Check -> bool, s: State, t: nat): (State, Outcome)
    requires t < |s.threads|
  {
    var th := s.threads[t];
    var (q, out) := Proceed(Cleanup(s.q, EntryOf(ok, th)), t == MASTER);
    var ts := if Notifies(ok, s, t) then Signal(s.threads, {MASTER}) else s.threads;
    var ended := t == MASTER && out.Return?;
    (State(q, ts[t := ThreadAfter(out)],
           if ended then multiset{} else s.added,
           if ended then multiset{} else s.finished + WorkOf(th)), out)
  }

  function Next(ok: Check -> bool, s: State, e: Event): State
    requires s.threads != [] && Enabled(s, e)
  {
    match e
    case Add(cs, woken) =>
      State(s.q.(queue := s.q.queue + cs, nTodo := s.q.nTodo + |cs|),
            Signal(s.threads, woken), s.added + multiset(cs), s.finished)
    case Enter(t) => Locked(ok, s, t).0
    case Wake(t) => Locked(ok, s, t).0
    case Finish(t) => Locked(ok, s, t).0
  }

  function Init(batchSize: nat, nThreads: nat): State
  {
    State(EmptyQueue(batchSize), seq(nThreads, _ => Outside), multiset{}, multiset{})
  }

  /** `s` is reached from the initial state by these events. */
  ghost predicate Reaches(ok: Check -> bool, s0: State, events: seq<Event>, s: State)
    decreases |events|
  {
    if events == [] then s == s0
    else
      exists m ::
        && Reaches(ok, s0, events[..|events| - 1], m) && m.threads != []
        && Enabled(m, events[|events| - 1]) && s == Next(ok, m, events[|events| - 1])
  }

  // ---- what the counters count ----

  function Work(ts: seq<Thread>): multiset<Check>
  {
    if ts == [] then multiset{} else Work(ts[..|ts| - 1]) + WorkOf(ts[|ts| - 1])
  }

  function Held(th: Thread): nat { if th.Running? then |th.batch| else 0 }

  function InFlight(ts: seq<Thread>): nat
  {
    if ts == [] then 0 else InFlight(ts[..|ts| - 1]) + Held(ts[|ts| - 1])
  }

  function InLoop(ts: seq<Thread>): nat
  {
    if ts == [] then 0 else InLoop(ts[..|ts| - 1]) + (if ts[|ts| - 1].Outside? then 0 else 1)
  }

  function Idle(ts: seq<Thread>): nat
  {
    if ts == [] then 0 else Idle(ts[..|ts| - 1]) + (if ts[|ts| - 1].Waiting? then 1 else 0)
  }

  lemma {:induction false} UpdateWork(ts: seq<Thread>, t: nat, th: Thread)
    requires t < |ts|
    ensures WorkOf(ts[t]) <= Work(ts)
    ensures Work(ts[t := th]) == Work(ts) - WorkOf(ts[t]) + WorkOf(th)
  {
    hide WorkOf;
    var k := |ts| - 1;
    if t == k {
      assert ts[t := th][..k] == ts[..k];
    } else {
      UpdateWork(ts[..k], t, th);
      assert ts[t := th][..k] == ts[..k][t := th];
    }
  }

  lemma {:induction false} UpdateCounts(ts: seq<Thread>, t: nat, th: Thread)
    requires t < |ts|
    ensures InFlight(ts[t := th]) + Held(ts[t]) == InFlight(ts) + Held(th)
    ensures InLoop(ts[t := th]) + (if ts[t].Outside? then 0 else 1) == InLoop(ts) + (if th.Outside? then 0 else 1)
    ensures Idle(ts[t := th]) + (if ts[t].Waiting? then 1 else 0) == Idle(ts) + (if th.Waiting? then 1 else 0)
  {
    hide Held;
    var k := |ts| - 1;
    if t == k {
      assert ts[t := th][..k] == ts[..k];
    } else {
      UpdateCounts(ts[..k], t, th);
      assert ts[t := th][..k] == ts[..k][t := th];
    }
  }

  lemma {:induction false} SignalCounts(ts: seq<Thread>, woken: set<nat>)
    ensures Work(Signal(ts, woken)) == Work(ts) && InFlight(Signal(ts, woken)) == InFlight(ts)
    ensures InLoop(Signal(ts, woken)) == InLoop(ts) && Idle(Signal(ts, woken)) == Idle(ts)
  {
    if ts != [] {
      var k := |ts| - 1;
      SignalCounts(ts[..k], woken);
      var ts' := Signal(ts, woken);
      assert ts'[..k] == Signal(ts[..k], woken);
      assert WorkOf(ts'[k]) == WorkOf(ts[k]) && Held(ts'[k]) == Held(ts[k]);
      assert ts'[k].Outside? == ts[k].Outside? && ts'[k].Waiting? == ts[k].Waiting?;
      hide WorkOf, Held, Signal;
    }
  }

  lemma {:induction false} CountsBound(ts: seq<Thread>, t: nat)
    requires t < |ts|
    ensures Held(ts[t]) <= InFlight(ts)
    ensures (if ts[t].Waiting? then 1 else 0) <= Idle(ts)
    ensures (if ts[t].Outside? then 0 else 1) <= InLoop(ts)
  {
    hide Held;
    var k := |ts| - 1;
    if t < k { CountsBound(ts[..k], t); }
  }

  /** With nothing in flight no thread holds a check. */
  lemma {:induction false} NoneInFlight(ts: seq<Thread>)
    requires InFlight(ts) == 0
    ensures Work(ts) == multiset{}
    ensures forall t | 0 <= t < |ts| && ts[t].Running? :: ts[t].batch == []
  {
    if ts != [] { NoneInFlight(ts[..|ts| - 1]); }
  }

  /** Some thread holds whatever is in flight. */
  lemma {:induction false} SomeoneRuns(ts: seq<Thread>) returns (t: nat)
    requires InFlight(ts) > 0
    ensures t < |ts| && ts[t].Running? && ts[t].batch != []
  {
    var k := |ts| - 1;
    if Held(ts[k]) > 0 { t := k; } else { t := SomeoneRuns(ts[..k]); }
  }

  lemma {:induction false} NobodyRuns(ts: seq<Thread>)
    requires InFlight(ts) == 0
    requires forall t | 0 <= t < |ts| && ts[t].Running? :: ts[t].batch != []
    ensures InLoop(ts) == Idle(ts)
  {
    if ts != [] { NobodyRuns(ts[..|ts| - 1]); }
  }

  // ---- the invariant ----

  predicate Counters(s: State)
  {
    && s.q.nTotal == InLoop(s.threads) && s.q.nIdle == Idle(s.threads)
    && s.q.nTodo == |s.q.queue| + InFlight(s.threads)
  }

  predicate History(s: State) { s.added == s.finished + multiset(s.q.queue) + Work(s.threads) }

  predicate Verdict(ok: Check -> bool, s: State)
  {
    && (s.q.fAllOk <==> forall c | c in s.finished :: ok(c))
    && (forall t | 0 <= t < |s.threads| && s.threads[t].Running? ::
          s.threads[t].batch != [] && (!s.threads[t].startOk ==> !s.q.fAllOk))
  }

  /** A sleeping master finds the stack empty, and unless it has been notified some check is in flight. */
  predicate Sleeping(s: State)
    requires s.threads != []
  {
    s.threads[MASTER].Waiting? ==> s.q.queue == [] && (!s.threads[MASTER].signalled ==> s.q.nTodo > 0)
  }

  predicate Inv(ok: Check -> bool, s: State)
  {
    s.threads != [] && !s.q.fQuit && Counters(s) && History(s) && Verdict(ok, s) && Sleeping(s)
  }

  // ---- one critical section ----

  lemma {:induction false} ReversedMultiset(s: seq<Check>)
    ensures multiset(Reversed(s)) == multiset(s)
  {
    if s != [] {
      var k := |s| - 1;
      ReversedMultiset(s[..k]);
      assert Reversed(s) == [s[k]] + Reversed(s[..k]);
      assert s == s[..k] + [s[k]];
    }
  }

  /** A critical section that ends in a batch splits the stack. */
  lemma TakeSplits(q: Shared, master: bool)
    requires q.queue != [] && q.nTotal >= 0 && q.nIdle >= 0
    ensures var (q', out) := Proceed(q, master);
            && out.Take? && out.batch != [] && out.startOk == q.fAllOk
            && |q.queue| == |q'.queue| + |out.batch|
            && multiset(q.queue) == multiset(q'.queue) + multiset(out.batch)
            && q' == q.(queue := q'.queue)
  {
    BatchFits(q);
    hide BatchCount;
    var rest := |q.queue| - BatchCount(q);
    ReversedMultiset(q.queue[rest..]);
    assert q.queue == q.queue[..rest] + q.queue[rest..];
  }

  lemma EmptyProceed(q: Shared, master: bool)
    requires q.queue == [] && !q.fQuit
    ensures var (q', out) := Proceed(q, master);
            if master && q.nTodo == 0 then
              out == Return(q.fAllOk) && q' == q.(nTotal := q.nTotal - 1, fAllOk := true)
            else out == Sleep && q' == q.(nIdle := q.nIdle + 1)
  {}

  /** The counters after the clean-up, still counting the thread as it was. */
  lemma CleanupCounts(ok: Check -> bool, s: State, t: nat)
    requires s.threads != [] && !s.q.fQuit && Counters(s) && t < |s.threads|
    ensures var th := s.threads[t]; var q := Cleanup(s.q, EntryOf(ok, th));
            && q.nTotal == InLoop(s.threads) + (if th.Outside? then 1 else 0)
            && q.nIdle == Idle(s.threads) - (if th.Waiting? then 1 else 0)
            && q.nIdle >= 0 && q.nTotal >= 1 && q.queue == s.q.queue && !q.fQuit
            && q.nTodo == |q.queue| + InFlight(s.threads) - Held(th) && Held(th) <= InFlight(s.threads)
  {
    hide InFlight, InLoop, Idle;
    CountsBound(s.threads, t);
  }

  /** Every critical section keeps the counters exact. */
  lemma LockedCounters(ok: Check -> bool, s: State, t: nat)
    requires s.threads != [] && !s.q.fQuit && Counters(s) && t < |s.threads|
    ensures Counters(Locked(ok, s, t).0)
  {
    hide InFlight, InLoop, Idle, Proceed, Cleanup, EntryOf, WorkOf;
    var q1 := Cleanup(s.q, EntryOf(ok, s.threads[t]));
    CleanupCounts(ok, s, t);
    var out := Locked(ok, s, t).1;
    SignalCounts(s.threads, {MASTER});
    var ts := if Notifies(ok, s, t) then Signal(s.threads, {MASTER}) else s.threads;
    assert ts[t] == s.threads[t];
    hide Notifies, Signal;
    UpdateCounts(ts, t, ThreadAfter(out));
    if s.q.queue != [] {
      TakeSplits(q1, t == MASTER);
      assert Held(ThreadAfter(out)) == |out.batch|;
    } else {
      EmptyProceed(q1, t == MASTER);
      assert Held(ThreadAfter(out)) == 0;
    }
    hide Held;
  }

  /** Moving checks between the stack, a batch and the finished ones loses none. */
  lemma Conserved(f: multiset<Check>, mine: multiset<Check>, held: multiset<Check>,
                  rest: multiset<Check>, batch: multiset<Check>)
    ensures f + (rest + batch) + (held + mine) == (f + mine) + rest + (held + batch)
  {}

  /** Checks held by the other threads. */
  lemma OthersWork(ok: Check -> bool, s: State, t: nat, th: Thread) returns (held: multiset<Check>)
    requires t < |s.threads|
    ensures Work(s.threads) == held + WorkOf(s.threads[t])
    ensures Work((if Notifies(ok, s, t) then Signal(s.threads, {MASTER}) else s.threads)[t := th]) == held + WorkOf(th)
  {
    hide Work, WorkOf;
    var ts := if Notifies(ok, s, t) then Signal(s.threads, {MASTER}) else s.threads;
    SignalCounts(s.threads, {MASTER});
    assert ts[t] == s.threads[t];
    UpdateWork(ts, t, th);
    held := Work(s.threads) - WorkOf(s.threads[t]);
  }

  /** Every critical section accounts for every check. */
  lemma LockedHistory(ok: Check -> bool, s: State, t: nat)
    requires s.threads != [] && !s.q.fQuit && Counters(s) && History(s) && t < |s.threads|
    ensures History(Locked(ok, s, t).0)
  {
    hide Work, Proceed, WorkOf, Cleanup, EntryOf, Counters, Signal, Notifies;
    var th := s.threads[t];
    var q1 := Cleanup(s.q, EntryOf(ok, th));
    CleanupCounts(ok, s, t);
    var (s', out) := Locked(ok, s, t);
    var held := OthersWork(ok, s, t, ThreadAfter(out));
    if s.q.queue != [] {
      TakeSplits(q1, t == MASTER);
      BatchWork(out);
      Conserved(s.finished, WorkOf(th), held, multiset(s'.q.queue), multiset(out.batch));
    } else {
      EmptyProceed(q1, t == MASTER);
      IdleWork(out);
      if out.Return? { ReturnLeavesNothing(ok, s, t, held); }
    }
  }

  lemma BatchWork(out: Outcome)
    requires out.Take?
    ensures WorkOf(ThreadAfter(out)) == multiset(out.batch)
  {}

  lemma IdleWork(out: Outcome)
    requires !out.Take?
    ensures WorkOf(ThreadAfter(out)) == multiset{}
  {}

  lemma ReturnLeavesNothing(ok: Check -> bool, s: State, t: nat, held: multiset<Check>)
    requires t < |s.threads| && InFlight(s.threads) == Held(s.threads[t])
    requires Work(s.threads) == held + WorkOf(s.threads[t])
    ensures held == multiset{}
  {
    hide InFlight, Work;
    UpdateCounts(s.threads, t, Outside);
    UpdateWork(s.threads, t, Outside);
    NoneInFlight(s.threads[t := Outside]);
  }

  /** The flag after the clean-up covers the finished batch. */
  lemma CleanupVerdict(ok: Check -> bool, s: State, t: nat)
    requires Verdict(ok, s) && t < |s.threads|
    ensures Cleanup(s.q, EntryOf(ok, s.threads[t])).fAllOk
            <==> forall c | c in s.finished + WorkOf(s.threads[t]) :: ok(c)
    ensures Cleanup(s.q, EntryOf(ok, s.threads[t])).fAllOk ==> s.q.fAllOk
  {
    var th := s.threads[t];
    var fin := s.finished + WorkOf(th);
    if forall c | c in fin :: ok(c) {
      assert forall c | c in s.finished :: c in fin;
      if th.Running? {
        forall i | 0 <= i < |th.batch| ensures ok(th.batch[i]) { assert th.batch[i] in fin; }
      }
    }
  }

  /** Every critical section keeps the verdict right. */
  lemma LockedVerdict(ok: Check -> bool, s: State, t: nat)
    requires s.threads != [] && !s.q.fQuit && Counters(s) && Verdict(ok, s) && t < |s.threads|
    ensures Verdict(ok, Locked(ok, s, t).0)
  {
    hide Counters, Proceed, EntryOf, WorkOf, Cleanup;
    var q1 := Cleanup(s.q, EntryOf(ok, s.threads[t]));
    CleanupCounts(ok, s, t);
    CleanupVerdict(ok, s, t);
    var (s', out) := Locked(ok, s, t);
    if s.q.queue != [] {
      TakeSplits(q1, t == MASTER);
    } else {
      EmptyProceed(q1, t == MASTER);
    }
    forall u | 0 <= u < |s'.threads| && s'.threads[u].Running?
      ensures s'.threads[u].batch != [] && (!s'.threads[u].startOk ==> !s'.q.fAllOk)
    {
      if u != t {
        assert s'.threads[u] == s.threads[u];
        if out.Return? {
          UpdateCounts(s.threads, t, Outside);
          NoneInFlight(s.threads[t := Outside]);
        }
      }
    }
  }

  /** No wake-up of the master is lost. */
  lemma LockedSleeping(ok: Check -> bool, s: State, t: nat)
    requires s.threads != [] && !s.q.fQuit && Counters(s) && Sleeping(s) && t < |s.threads|
    ensures Sleeping(Locked(ok, s, t).0)
  {
    hide Proceed, Counters, EntryOf, WorkOf, Cleanup;
    var q1 := Cleanup(s.q, EntryOf(ok, s.threads[t]));
    CleanupCounts(ok, s, t);
    if s.q.queue != [] { TakeSplits(q1, t == MASTER); } else { EmptyProceed(q1, t == MASTER); }
    if t != MASTER && !s.threads[t].Running? {
      assert q1.nTodo == s.q.nTodo by { CleanupTodo(ok, s, t); }
    }
  }

  lemma CleanupTodo(ok: Check -> bool, s: State, t: nat)
    requires t < |s.threads| && !s.threads[t].Running?
    ensures Cleanup(s.q, EntryOf(ok, s.threads[t])).nTodo == s.q.nTodo
  {}

  lemma LockedQuit(ok: Check -> bool, s: State, t: nat)
    requires t < |s.threads| && !s.q.fQuit
    ensures !Locked(ok, s, t).0.q.fQuit && Locked(ok, s, t).0.threads != []
  {}

  lemma LockedKeepsInv(ok: Check -> bool, s: State, t: nat)
    requires Inv(ok, s) && t < |s.threads|
    ensures Inv(ok, Locked(ok, s, t).0)
  {
    hide Counters, History, Verdict, Sleeping, Locked;
    LockedQuit(ok, s, t);
    LockedCounters(ok, s, t);
    LockedHistory(ok, s, t);
    LockedVerdict(ok, s, t);
    LockedSleeping(ok, s, t);
  }

  lemma AddKeepsInv(ok: Check -> bool, s: State, cs: seq<Check>, woken: set<nat>)
    requires Inv(ok, s) && Enabled(s, Add(cs, woken))
    ensures Inv(ok, Next(ok, s, Add(cs, woken)))
  {
    hide Work, InFlight, InLoop, Idle;
    SignalCounts(s.threads, woken);
    assert multiset(s.q.queue + cs) == multiset(s.q.queue) + multiset(cs);
  }

  lemma NextKeepsInv(ok: Check -> bool, s: State, e: Event)
    requires Inv(ok, s) && Enabled(s, e)
    ensures Inv(ok, Next(ok, s, e))
  {
    match e {
      case Add(cs, woken) => AddKeepsInv(ok, s, cs, woken);
      case Enter(t) => LockedKeepsInv(ok, s, t); hide *;
      case Wake(t) => LockedKeepsInv(ok, s, t); hide *;
      case Finish(t) => LockedKeepsInv(ok, s, t); hide *;
    }
  }

  lemma {:induction false} InitCounts(n: nat)
    ensures var ts: seq<Thread> := seq(n, _ => Outside);
            Work(ts) == multiset{} && InFlight(ts) == 0 && InLoop(ts) == 0 && Idle(ts) == 0
  {
    if n > 0 {
      InitCounts(n - 1);
      var ts: seq<Thread> := seq(n, _ => Outside);
      assert ts[..n - 1] == seq(n - 1, _ => Outside);
    }
  }

  lemma {:induction false} ReachableInv(ok: Check -> bool, batchSize: nat, nThreads: nat, events: seq<Event>, s: State)
    requires nThreads > 0 && Reaches(ok, Init(batchSize, nThreads), events, s)
    ensures Inv(ok, s)
    decreases |events|
  {
    if events == [] {
      InitCounts(nThreads);
    } else {
      hide Inv, Next, Enabled;
      var k := |events| - 1;
      var m :| Reaches(ok, Init(batchSize, nThreads), events[..k], m) && m.threads != []
               && Enabled(m, events[k]) && s == Next(ok, m, events[k]);
      ReachableInv(ok, batchSize, nThreads, events[..k], m);
      NextKeepsInv(ok, m, events[k]);
    }
  }

  // ---- main results, over every interleaving ----

  /** `nTodo` counts queued and in-flight checks, the other counters count threads, and every check added
      since the last return is queued, in flight or finished, exactly once. */
  lemma CountersExact(ok: Check -> bool, batchSize: nat, nThreads: nat, events: seq<Event>, s: State)
    requires nThreads > 0 && Reaches(ok, Init(batchSize, nThreads), events, s)
    ensures s.q.nTodo == |s.q.queue| + InFlight(s.threads)
    ensures s.q.nTotal == InLoop(s.threads) && s.q.nIdle == Idle(s.threads)
    ensures s.added == s.finished + multiset(s.q.queue) + Work(s.threads)
  {
    hide Reaches;
    ReachableInv(ok, batchSize, nThreads, events, s);
  }

  lemma ReturnIsRight(ok: Check -> bool, s: State)
    requires Inv(ok, s) && Locked(ok, s, MASTER).1.Return?
    ensures Locked(ok, s, MASTER).1.result <==> forall c | c in s.added :: ok(c)
    ensures Locked(ok, s, MASTER).0.added == multiset{} && Locked(ok, s, MASTER).0.threads[MASTER].Outside?
  {
    hide Sleeping, Work, WorkOf, Proceed, Verdict, Counters, Cleanup, EntryOf;
    var th := s.threads[MASTER];
    var q1 := Cleanup(s.q, EntryOf(ok, th));
    CleanupCounts(ok, s, MASTER);
    if s.q.queue != [] { TakeSplits(q1, true); } else { EmptyProceed(q1, true); }
    var held := OthersWork(ok, s, MASTER, Outside);
    ReturnLeavesNothing(ok, s, MASTER, held);
    assert s.added == s.finished + WorkOf(th);
    CleanupVerdict(ok, s, MASTER);
  }

  /** Between two uses of the queue the assertions of `CCheckQueueControl` hold. */
  lemma QuietState(ok: Check -> bool, s: State)
    requires Inv(ok, s) && s.added == multiset{} && s.threads[MASTER].Outside?
    ensures s.q.nTotal == s.q.nIdle && s.q.nTodo == 0 && s.q.fAllOk
  {
    hide Work, InFlight, InLoop, Idle;
    assert Work(s.threads) <= s.added && s.finished <= s.added && multiset(s.q.queue) <= s.added;
    assert |multiset(s.q.queue)| == |s.q.queue|;
    if InFlight(s.threads) > 0 { WorkInFlight(s.threads); }
    NobodyRuns(s.threads);
  }

  lemma WorkInFlight(ts: seq<Thread>)
    requires InFlight(ts) > 0
    ensures Work(ts) != multiset{}
  {
    var t := SomeoneRuns(ts);
    UpdateWork(ts, t, Outside);
    assert ts[t].batch[0] in WorkOf(ts[t]);
  }

  /** When the master's critical section ends `Wait`, the result is true exactly if every check added since
      the previous return succeeds, although checks are skipped after a failure; the queue is then ready
      for the next use. */
  lemma WaitIsRight(ok: Check -> bool, batchSize: nat, nThreads: nat, events: seq<Event>, s: State)
    requires nThreads > 0 && Reaches(ok, Init(batchSize, nThreads), events, s)
    requires s.threads != [] && Locked(ok, s, MASTER).1.Return?
    ensures Locked(ok, s, MASTER).1.result <==> forall c | c in s.added :: ok(c)
    ensures var q := Locked(ok, s, MASTER).0.q; q.nTotal == q.nIdle && q.nTodo == 0 && q.fAllOk
  {
    hide Reaches, Locked;
    ReachableInv(ok, batchSize, nThreads, events, s);
    ReturnIsRight(ok, s);
    LockedKeepsInv(ok, s, MASTER);
    QuietState(ok, Locked(ok, s, MASTER).0);
  }

  /** The same assertions hold in every reachable state in which nothing was added since the last return. */
  lemma QueueIsReusable(ok: Check -> bool, batchSize: nat, nThreads: nat, events: seq<Event>, s: State)
    requires nThreads > 0 && Reaches(ok, Init(batchSize, nThreads), events, s)
    requires s.added == multiset{} && s.threads != [] && s.threads[MASTER].Outside?
    ensures s.q.nTotal == s.q.nIdle && s.q.nTodo == 0 && s.q.fAllOk
  {
    hide Reaches;
    ReachableInv(ok, batchSize, nThreads, events, s);
    QuietState(ok, s);
  }

  /** A sleeping master that nobody has notified has a worker holding a batch. */
  lemma SleepingMasterHasWorker(ok: Check -> bool, s: State) returns (t: nat)
    requires Inv(ok, s) && s.threads[MASTER] == Waiting(false)
    ensures 0 < t < |s.threads| && s.threads[t].Running? && s.threads[t].batch != []
  {
    t := SomeoneRuns(s.threads);
  }

  /** The schedule runs threads that hold a batch or were notified, and its last section ends `Wait`. */
  predicate Completes(ok: Check -> bool, s: State, schedule: seq<nat>)
    decreases |schedule|
  {
    && schedule != [] && schedule[0] < |s.threads|
    && (s.threads[schedule[0]].Running? || s.threads[schedule[0]] == Waiting(true))
    && (var (s', out) := Locked(ok, s, schedule[0]);
        if |schedule| == 1 then schedule[0] == MASTER && out.Return?
        else Completes(ok, s', schedule[1..]))
  }

  lemma LastWake(ok: Check -> bool, s: State)
    requires Inv(ok, s) && !s.threads[MASTER].Outside? && InFlight(s.threads) == 0
    ensures s.threads[MASTER] == Waiting(true) && Locked(ok, s, MASTER).1.Return? && s.q.nTodo == 0
  {
    hide InFlight;
    NoneInFlight(s.threads);
  }

  lemma FinishLowersTodo(ok: Check -> bool, s: State, t: nat)
    requires Inv(ok, s) && t < |s.threads| && s.threads[t].Running?
    ensures Locked(ok, s, t).0.q.nTodo < s.q.nTodo
    ensures !(t == MASTER && Locked(ok, s, t).1.Return?) && !s.threads[MASTER].Outside? ==>
              !Locked(ok, s, t).0.threads[MASTER].Outside?
  {
    hide Proceed, History, Sleeping;
    var q1 := Cleanup(s.q, EntryOf(ok, s.threads[t]));
    CleanupCounts(ok, s, t);
    if s.q.queue != [] { TakeSplits(q1, t == MASTER); } else { EmptyProceed(q1, t == MASTER); }
  }

  /** Never stuck: whenever the master is in `Wait`, running only threads that hold a batch, and then the
      master if it was notified, ends the wait within nTodo + 1 critical sections. */
  lemma {:induction false} WaitCanComplete(ok: Check -> bool, s: State) returns (schedule: seq<nat>)
    requires Inv(ok, s) && !s.threads[MASTER].Outside?
    ensures |schedule| <= s.q.nTodo + 1 && Completes(ok, s, schedule)
    decreases s.q.nTodo
  {
    hide InFlight, Verdict, History, Sleeping, Locked;
    if InFlight(s.threads) == 0 {
      LastWake(ok, s);
      schedule := [MASTER];
    } else {
      var t := SomeoneRuns(s.threads);
      var (s', out) := Locked(ok, s, t);
      LockedKeepsInv(ok, s, t);
      FinishLowersTodo(ok, s, t);
      if t == MASTER && out.Return? {
        schedule := [t];
      } else {
        var rest := WaitCanComplete(ok, s');
        schedule := [t] + rest;
        assert schedule[1..] == rest;
      }
    }
  }

  /** Any interleaving of critical sections during which the master stays in `Wait`. */
  ghost predicate ReachesInWait(ok: Check -> bool, s0: State, events: seq<Event>, s: State)
    decreases |events|
  {
    && s.threads != [] && !s.threads[MASTER].Outside?
    && if events == [] then s == s0
       else
         exists m ::
           && ReachesInWait(ok, s0, events[..|events| - 1], m) && m.threads != []
           && Enabled(m, events[|events| - 1]) && s == Next(ok, m, events[|events| - 1])
  }

  /** How many batches are finished. */
  function Finishes(events: seq<Event>): nat
  {
    if events == [] then 0 else Finishes(events[..|events| - 1]) + (if events[|events| - 1].Finish? then 1 else 0)
  }

  lemma OtherKeepsTodo(ok: Check -> bool, s: State, t: nat)
    requires t < |s.threads| && !s.threads[t].Running?
    ensures Locked(ok, s, t).0.q.nTodo == s.q.nTodo
  {}

  lemma EventLowersTodo(ok: Check -> bool, s: State, e: Event)
    requires Inv(ok, s) && s.threads != [] && !s.threads[MASTER].Outside? && Enabled(s, e)
    ensures Next(ok, s, e).q.nTodo <= s.q.nTodo - (if e.Finish? then 1 else 0)
  {
    hide Inv, Locked;
    match e
    case Enter(t) => OtherKeepsTodo(ok, s, t);
    case Wake(t) => OtherKeepsTodo(ok, s, t);
    case Finish(t) => FinishLowersTodo(ok, s, t);
  }

  lemma TodoNatural(ok: Check -> bool, s: State)
    requires Inv(ok, s)
    ensures s.q.nTodo >= 0
  {
    hide Verdict, History, Sleeping;
  }

  /** Whatever the scheduler does while the master waits, with workers coming and going and waking for no reason:
      at most nTodo batches are finished, and at every point some thread holds a batch it can finish, or the
      master has been notified and its next section ends the wait. */
  lemma {:induction false} EveryScheduleProgresses(ok: Check -> bool, s: State, events: seq<Event>, s': State)
    requires Inv(ok, s) && ReachesInWait(ok, s, events, s')
    ensures Inv(ok, s') && Finishes(events) <= s.q.nTodo - s'.q.nTodo <= s.q.nTodo
    ensures (exists t :: 0 <= t < |s'.threads| && s'.threads[t].Running? && s'.threads[t].batch != []) ||
            (s'.threads[MASTER] == Waiting(true) && Locked(ok, s', MASTER).1.Return?)
    decreases |events|
  {
    hide Inv, Locked, Next, Enabled;
    if events != [] {
      var n := |events| - 1;
      var m :| ReachesInWait(ok, s, events[..n], m) && m.threads != [] && Enabled(m, events[n]) && s' == Next(ok, m, events[n]);
      EveryScheduleProgresses(ok, s, events[..n], m);
      NextKeepsInv(ok, m, events[n]);
      EventLowersTodo(ok, m, events[n]);
    }
    TodoNatural(ok, s');
    WorkOrWake(ok, s');
  }

  lemma WorkOrWake(ok: Check -> bool, s: State)
    requires Inv(ok, s) && s.threads != [] && !s.threads[MASTER].Outside?
    ensures (exists t :: 0 <= t < |s.threads| && s.threads[t].Running? && s.threads[t].batch != []) ||
            (s.threads[MASTER] == Waiting(true) && Locked(ok, s, MASTER).1.Return?)
  {
    hide Locked;
    if InFlight(s.threads) == 0 {
      LastWake(ok, s);
    } else {
      var t := SomeoneRuns(s.threads);
    }
  }
}
