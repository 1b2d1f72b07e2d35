/** `CChain`: the vector of the blocks of a chain and its incremental update by `SetTip`, with the
    dynamic block-size limits that the active chain keeps. */
module ChainTip {
  import opened Basics
  import opened BlockTree

  const MIN_MAX_BLOCK_SIZE: nat := 1_000_000
  const PERIOD: nat := 131_400

  // ---- the limits, computed from scratch ----

  function Sum(s: seq<nat>): nat { if s == [] then 0 else Sum(s[..|s| - 1]) + s[|s| - 1] }

  function Insert(s: seq<nat>, x: nat): (r: seq<nat>)
    ensures |r| == |s| + 1
  {
    if s == [] || s[|s| - 1] <= x then s + [x] else Insert(s[..|s| - 1], x) + [s[|s| - 1]]
  }

  function Sorted(s: seq<nat>): (r: seq<nat>)
    ensures |r| == |s|
  {
    if s == [] then [] else Insert(Sorted(s[..|s| - 1]), s[|s| - 1])
  }

  /** The limit after a period whose blocks have the given sizes. */
  function NextLimit(limit: nat, sizes: seq<nat>): (r: nat)
    requires |sizes| == PERIOD
    ensures r >= limit && r >= MIN_MAX_BLOCK_SIZE
  {
    var average := Sum(sizes) / PERIOD;
    var raised :=
      if 3 * average > 2 * limit && Sorted(sizes)[PERIOD / 2] * 2 > limit then 11 * limit / 10 else limit;
    Max(Max(raised, limit), MIN_MAX_BLOCK_SIZE)
  }

  /** The limit for the period that starts at height `h`. */
  function LimitAt(sizes: seq<nat>, h: nat): (r: nat)
    requires h % PERIOD == 0 && h <= |sizes|
    ensures r >= MIN_MAX_BLOCK_SIZE
    decreases h
  {
    if h == 0 then MIN_MAX_BLOCK_SIZE
    else NextLimit(LimitAt(sizes, h - PERIOD), sizes[h - PERIOD..h])
  }

  /** One limit for each period that starts at or before height n. */
  ghost predicate LimitsUpTo(limits: map<int, int>, sizes: seq<nat>, n: int)
    requires n <= |sizes|
  {
    && (forall h: int :: h in limits <==> 0 <= h <= n && h % PERIOD == 0)
    && (forall h: int | 0 <= h <= n && h % PERIOD == 0 :: h in limits && limits[h] == LimitAt(sizes, h))
  }

  ghost predicate LimitsExact(limits: map<int, int>, sizes: seq<nat>) { LimitsUpTo(limits, sizes, |sizes|) }

  ghost function SizesOf(ix: Index, p: seq<BlockId>): (s: seq<nat>)
    ensures |s| == |p| && forall i | 0 <= i < |p| :: s[i] == ix.size(p[i])
  {
    seq(|p|, i requires 0 <= i < |p| => ix.size(p[i]))
  }

  /** A limit depends only on the blocks before its period. */
  lemma {:induction false} LimitPrefix(a: seq<nat>, b: seq<nat>, h: nat)
    requires h % PERIOD == 0 && h <= |a| && h <= |b| && a[..h] == b[..h]
    ensures LimitAt(a, h) == LimitAt(b, h)
    decreases h
  {
    if h > 0 {
      hide NextLimit;
      var g := h - PERIOD;
      assert a[..g] == a[..h][..g] == b[..g];
      assert a[g..h] == a[..h][g..h] == b[g..h];
      LimitPrefix(a, b, g);
    }
  }

  lemma PeriodStart(h: nat)
    ensures 0 <= h - h % PERIOD <= h && (h - h % PERIOD) % PERIOD == 0
  {
    var q := h / PERIOD;
    assert h - h % PERIOD == q * PERIOD;
  }

  // ---- the object ----

  class Chain {
    var vChain: seq<BlockId>
    var limits: map<int, int>
    const isActive: bool

    constructor (active: bool)
      ensures vChain == [] && limits == map[0 := MIN_MAX_BLOCK_SIZE] && isActive == active
    {
      vChain, limits, isActive := [], map[0 := MIN_MAX_BLOCK_SIZE], active;
    }

    /** The limits are what they would be if computed from scratch. */
    ghost predicate LimitsRight(ix: Index) reads this { LimitsExact(limits, SizesOf(ix, vChain)) }

    function Tip(): int reads this { if |vChain| > 0 then vChain[|vChain| - 1] else NULL }

    /** operator[] */
    function At(h: int): int reads this { if h < 0 || h >= |vChain| then NULL else vChain[h] }

    predicate Contains(ix: Index, b: BlockId)
      reads this
    {
      At(ix.height(b)) == b
    }

    function Height(): int reads this { |vChain| - 1 }

    function MaxBlockSize(h: int): int
      reads this
    {
      var last := h - (h % PERIOD);
      if last in limits then limits[last] else MIN_MAX_BLOCK_SIZE
    }

    /** Every height up to the next one is served the limit of the period it lies in. */
    lemma MaxBlockSizeServes(ix: Index, h: nat)
      requires LimitsRight(ix) && h <= |vChain|
      ensures MaxBlockSize(h) == LimitAt(SizesOf(ix, vChain), h - h % PERIOD)
    {
      PeriodStart(h);
    }

    /** The early-stopping walk: it leaves the whole path to `p`, whatever path was there before. */
    method SetVector(ix: Index, p: BlockId)
      requires ix.WellFormed() && IsPath(ix, vChain) && p in ix.blocks
      modifies this`vChain
      ensures vChain == Path(ix, p)
    {
      ghost var was, goal := vChain, Path(ix, p);
      PathIsPath(ix, p);
      hide Path, IsPath, Mixed, Resize;
      vChain := Resize(vChain, ix.height(p) + 1);
      ghost var start := vChain;
      var c: BlockId := p;
      ghost var k := |goal|;
      MixedStart(start, goal);
      while c != NULL && vChain[ix.height(c)] != c
        invariant 0 <= k <= |goal| == |start|
        invariant if k == 0 then c == NULL else c in ix.blocks && ix.height(c) == k - 1 && goal[k - 1] == c
        invariant vChain == Mixed(start, goal, k)
        decreases k
      {
        MixedStep(start, goal, k);
        PrevOnPath(ix, goal, k - 1);
        if k > 1 { IsPathAt(ix, goal, k - 2); }
        vChain := vChain[ix.height(c) := c];
        c := ix.Prev(c);
        k := k - 1;
      }
      if k > 0 {
        MixedStep(start, goal, k);
        WalkStopsRight(ix, was, goal, start, k - 1);
      }
      MixedDone(start, goal, k);
    }

    /** Drop the limits of periods that start above height h. */
    method EraseAbove(h: int)
      modifies this`limits
      ensures limits == map k | k in old(limits) && k <= h :: old(limits)[k]
    {
      limits := map k | k in limits && k <= h :: limits[k];
    }

    /** The limit for the period after the block at height h, the last of its period. */
    method Recalculate(ix: Index, h: nat, ghost sizes: seq<nat>) returns (limit: int)
      requires ix.WellFormed() && ix.Accumulates() && IsPath(ix, vChain) && h < |vChain| && (h + 1) % PERIOD == 0
      requires sizes == SizesOf(ix, vChain) && LimitsUpTo(limits, sizes, h)
      ensures limit == LimitAt(sizes, h + 1)
    {
      hide IsPath, Path, LimitsUpTo, LimitAt, Sum, Sorted, SizesOf;
      var first := h - (h % PERIOD);
      PeriodOf(h, first);
      var prev := MaxBlockSize(h);
      LimitKnown(limits, sizes, h, first);
      LimitUnfolds(sizes, h, first);
      var start, begin := vChain[h], vChain[first];
      WindowSum(ix, vChain, first, h);
      var average := (ix.chainSize(start) - ix.chainSize(begin) + ix.size(begin)) / PERIOD;
      limit := prev;
      if 3 * average > 2 * prev {
        var window := Window(ix, first);
        if Sorted(window)[PERIOD / 2] * 2 > prev { limit := 11 * prev / 10; }
      }
      limit := Max(limit, prev);
      limit := Max(limit, MIN_MAX_BLOCK_SIZE);
    }

    method Window(ix: Index, first: nat) returns (window: seq<nat>)
      requires first + PERIOD <= |vChain|
      ensures window == SizesOf(ix, vChain)[first..first + PERIOD]
    {
      window := [];
      for i := 0 to PERIOD
        invariant |window| == i && forall j | 0 <= j < i :: window[j] == ix.size(vChain[first + j])
      {
        window := window + [ix.size(vChain[first + i])];
      }
    }

    /** One stop of the walk below: fill in the limit of the next period if it is due and missing. */
    method Visit(ix: Index, ghost sizes: seq<nat>, start: nat, ghost n: nat)
      requires ix.WellFormed() && ix.Accumulates() && IsPath(ix, vChain) && start < |vChain|
      requires sizes == SizesOf(ix, vChain) && start <= n <= |sizes| && LimitsUpTo(limits, sizes, n)
      modifies this`limits
      ensures LimitsUpTo(limits, sizes, Max(n, start + 1))
    {
      hide IsPath, Path, LimitsUpTo;
      if (start + 1) % PERIOD == 0 && (start + 1 !in limits || limits[start + 1] == 0) {
        MissingLimit(limits, sizes, n, start);
        var limit := Recalculate(ix, start, sizes);
        AddLimit(limits, sizes, start, limit);
        limits := limits[start + 1 := limit];
      } else {
        NothingToAdd(limits, sizes, n, start);
      }
    }

    /** Visits the last block of every period and the tip, filling in missing limits. */
    method UpdateLimits(ix: Index, ghost sizes: seq<nat>, ghost m: nat)
      requires ix.WellFormed() && ix.Accumulates() && IsPath(ix, vChain) && vChain != []
      requires sizes == SizesOf(ix, vChain) && m <= |sizes| && LimitsUpTo(limits, sizes, m)
      modifies this`limits
      ensures LimitsExact(limits, sizes)
    {
      hide IsPath, Path, LimitsUpTo, NoPeriodIn;
      var tip := |vChain| - 1;
      var start := Min(tip, PERIOD - 1);
      PeriodGap(m, 0, start);
      NoPeriodBetween(limits, sizes, m, start);
      while true
        invariant 0 <= start <= tip && (start == tip || (start + 1) % PERIOD == 0)
        invariant LimitsUpTo(limits, sizes, Max(m, start))
        decreases tip - start
      {
        Visit(ix, sizes, start, Max(m, start));
        var next := Min(start + PERIOD, tip);
        if next == start { break; }
        PeriodGap(Max(m, start + 1), start, next);
        NoPeriodBetween(limits, sizes, Max(m, start + 1), next);
        StopKind(start, next, tip);
        start := next;
      }
    }

    /** `SetTip`: the vector is the path to the new tip. The active chain only ever moves along one branch
        (from empty, to a parent or to a child), and then its limits stay what they would be from scratch. */
    method SetTip(ix: Index, p: BlockId)
      requires ix.WellFormed() && IsPath(ix, vChain) && (p == NULL || p in ix.blocks)
      requires isActive ==> ix.Accumulates() && LimitsRight(ix)
      requires isActive ==> vChain <= PathTo(ix, p) || PathTo(ix, p) <= vChain
      modifies this
      ensures vChain == PathTo(ix, p) && IsPath(ix, vChain)
      ensures isActive ==> LimitsRight(ix)
    {
      if p == NULL {
        vChain, limits := [], map[0 := MIN_MAX_BLOCK_SIZE];
        NoLimits(limits);
        return;
      }
      ghost var was, had := vChain, limits;
      SetVector(ix, p);
      PathIsPath(ix, p);
      if isActive {
        EraseAbove(1 + ix.height(p));
        ghost var sizes := SizesOf(ix, vChain);
        KeptLimits(had, limits, SizesOf(ix, was), sizes);
        UpdateLimits(ix, sizes, Min(|was|, |vChain|));
      }
    }
  }

  /** The vector during the walk: not yet visited below k, right from k on. */
  ghost function Mixed(start: seq<BlockId>, goal: seq<BlockId>, k: nat): (r: seq<BlockId>)
    requires k <= |start| == |goal|
    ensures |r| == |goal|
  {
    start[..k] + goal[k..]
  }

  lemma MixedStart(start: seq<BlockId>, goal: seq<BlockId>)
    requires |start| == |goal|
    ensures Mixed(start, goal, |goal|) == start
  {}

  lemma MixedStep(start: seq<BlockId>, goal: seq<BlockId>, k: nat)
    requires 0 < k <= |start| == |goal|
    ensures Mixed(start, goal, k)[k - 1] == start[k - 1]
    ensures Mixed(start, goal, k)[k - 1 := goal[k - 1]] == Mixed(start, goal, k - 1)
  {}

  lemma MixedDone(start: seq<BlockId>, goal: seq<BlockId>, k: nat)
    requires k <= |start| == |goal| && start[..k] == goal[..k]
    ensures Mixed(start, goal, k) == goal
  {}

  function Resize(v: seq<BlockId>, n: nat): (r: seq<BlockId>)
    ensures |r| == n
  {
    if n <= |v| then v[..n] else v + seq(n - |v|, _ => NULL)
  }

  /** Where the walk stops, the old vector already holds the right blocks. */
  lemma WalkStopsRight(ix: Index, was: seq<BlockId>, goal: seq<BlockId>, start: seq<BlockId>, h: nat)
    requires ix.WellFormed() && IsPath(ix, was) && IsPath(ix, goal) && h < |goal|
    requires start == Resize(was, |goal|) && start[h] == goal[h]
    ensures start[..h + 1] == goal[..h + 1]
  {
    IsPathAt(ix, goal, h);
    PathsAgreeBelow(ix, was, goal, h);
    assert start[..h + 1] == was[..h + 1];
  }

  // ---- the limits stay exact ----

  lemma NoLimits(limits: map<int, int>)
    requires limits == map[0 := MIN_MAX_BLOCK_SIZE]
    ensures LimitsExact(limits, [])
  {}

  lemma StopKind(start: nat, next: nat, tip: nat)
    requires (start + 1) % PERIOD == 0 && next == Min(start + PERIOD, tip)
    ensures next == tip || (next + 1) % PERIOD == 0
  {}

  lemma PeriodOf(h: nat, first: int)
    requires (h + 1) % PERIOD == 0 && first == h - (h % PERIOD)
    ensures first == h + 1 - PERIOD && first >= 0 && first % PERIOD == 0
  {}

  lemma LimitKnown(limits: map<int, int>, sizes: seq<nat>, h: nat, first: nat)
    requires h <= |sizes| && first <= h && first % PERIOD == 0 && LimitsUpTo(limits, sizes, h)
    ensures first in limits && limits[first] == LimitAt(sizes, first)
  {
    hide LimitAt;
  }

  lemma LimitUnfolds(sizes: seq<nat>, h: nat, first: nat)
    requires h + 1 <= |sizes| && first == h + 1 - PERIOD && first % PERIOD == 0 && (h + 1) % PERIOD == 0
    ensures LimitAt(sizes, h + 1) == NextLimit(LimitAt(sizes, first), sizes[first..h + 1])
  {
    hide NextLimit;
  }

  ghost predicate NoPeriodIn(m: int, n: int) { forall h: int | m < h <= n :: h % PERIOD != 0 }

  /** No period starts strictly between two consecutive stops of the walk. */
  lemma PeriodGap(m: nat, start: nat, next: nat)
    requires next < PERIOD || (start < m && (start + 1) % PERIOD == 0 && next <= start + PERIOD)
    ensures NoPeriodIn(m, next)
  {
    forall h: int | m < h <= next ensures h % PERIOD != 0
    {
      if next >= PERIOD { assert 0 < h - (start + 1) < PERIOD; }
    }
  }

  lemma NoPeriodBetween(limits: map<int, int>, sizes: seq<nat>, m: nat, next: nat)
    requires m <= |sizes| && next <= |sizes| && LimitsUpTo(limits, sizes, m)
    requires NoPeriodIn(m, next)
    ensures LimitsUpTo(limits, sizes, Max(m, next))
  {
    hide LimitAt;
  }

  lemma MissingLimit(limits: map<int, int>, sizes: seq<nat>, n: nat, start: nat)
    requires n <= |sizes| && LimitsUpTo(limits, sizes, n) && start <= n && (start + 1) % PERIOD == 0
    requires start + 1 !in limits || limits[start + 1] == 0
    ensures n == start && start + 1 !in limits
  {
  }

  lemma AddLimit(limits: map<int, int>, sizes: seq<nat>, start: nat, limit: int)
    requires start + 1 <= |sizes| && LimitsUpTo(limits, sizes, start) && (start + 1) % PERIOD == 0
    requires limit == LimitAt(sizes, start + 1)
    ensures LimitsUpTo(limits[start + 1 := limit], sizes, start + 1)
  {
    hide LimitAt;
  }

  lemma NothingToAdd(limits: map<int, int>, sizes: seq<nat>, n: nat, start: nat)
    requires n <= |sizes| && LimitsUpTo(limits, sizes, n) && start <= n && start + 1 <= |sizes|
    requires (start + 1) % PERIOD != 0 || start + 1 in limits
    ensures LimitsUpTo(limits, sizes, Max(n, start + 1))
  {
    hide LimitAt;
  }

  /** Along one branch the limits that survive the erasure are right for the new chain. */
  lemma KeptLimits(had: map<int, int>, limits: map<int, int>, before: seq<nat>, sizes: seq<nat>)
    requires LimitsExact(had, before) && (before <= sizes || sizes <= before)
    requires limits == map k | k in had && k <= |sizes| :: had[k]
    ensures LimitsUpTo(limits, sizes, Min(|before|, |sizes|))
  {
    hide LimitAt;
    var n := Min(|before|, |sizes|);
    assert before[..n] == sizes[..n];
    forall h: int | 0 <= h <= n && h % PERIOD == 0
      ensures LimitAt(before, h) == LimitAt(sizes, h)
    {
      assert before[..h] == before[..n][..h] == sizes[..h];
      LimitPrefix(before, sizes, h);
    }
  }

  lemma SumSplit(a: seq<nat>, b: seq<nat>)
    ensures Sum(a + b) == Sum(a) + Sum(b)
  {
    if b == [] {
      assert a + b == a;
    } else {
      SumSplit(a, b[..|b| - 1]);
      assert (a + b)[..|a + b| - 1] == a + b[..|b| - 1];
    }
  }

  /** The stored cumulative sizes are sums along the path. */
  lemma {:induction false} ChainSizeIsSum(ix: Index, p: seq<BlockId>, h: nat)
    requires ix.WellFormed() && ix.Accumulates() && IsPath(ix, p) && h < |p|
    ensures ix.chainSize(p[h]) == Sum(SizesOf(ix, p)[..h + 1])
  {
    var sizes := SizesOf(ix, p);
    IsPathAt(ix, p, h);
    PrevOnPath(ix, p, h);
    assert sizes[..h + 1][..h] == sizes[..h];
    if h > 0 { ChainSizeIsSum(ix, p, h - 1); }
  }

  lemma WindowSum(ix: Index, p: seq<BlockId>, first: nat, h: nat)
    requires ix.WellFormed() && ix.Accumulates() && IsPath(ix, p) && first <= h < |p|
    ensures ix.chainSize(p[h]) - ix.chainSize(p[first]) + ix.size(p[first]) == Sum(SizesOf(ix, p)[first..h + 1])
  {
    var sizes := SizesOf(ix, p);
    ChainSizeIsSum(ix, p, h);
    ChainSizeIsSum(ix, p, first);
    assert sizes[..h + 1] == sizes[..first] + sizes[first..h + 1];
    SumSplit(sizes[..first], sizes[first..h + 1]);
    assert sizes[..first + 1][..first] == sizes[..first];
  }

  // ---- what the limits mean ----

  /** How many of the blocks are larger than half the limit. */
  function CountAbove(sizes: seq<nat>, limit: nat): (n: nat)
    ensures n <= |sizes|
  {
    if sizes == [] then 0
    else CountAbove(sizes[..|sizes| - 1], limit) + (if 2 * sizes[|sizes| - 1] > limit then 1 else 0)
  }

  ghost predicate Ascending(s: seq<nat>) { forall i, j | 0 <= i <= j < |s| :: s[i] <= s[j] }

  lemma {:induction false} InsertBounded(s: seq<nat>, x: nat, b: nat)
    requires x <= b && forall i | 0 <= i < |s| :: s[i] <= b
    ensures forall i | 0 <= i <= |s| :: Insert(s, x)[i] <= b
  {
    if s != [] && s[|s| - 1] > x { InsertBounded(s[..|s| - 1], x, b); }
  }

  lemma {:induction false} InsertAscending(s: seq<nat>, x: nat)
    requires Ascending(s)
    ensures Ascending(Insert(s, x))
  {
    if s != [] && s[|s| - 1] > x {
      InsertAscending(s[..|s| - 1], x);
      InsertBounded(s[..|s| - 1], x, s[|s| - 1]);
    }
  }

  lemma {:induction false} InsertCount(s: seq<nat>, x: nat, limit: nat)
    ensures CountAbove(Insert(s, x), limit) == CountAbove(s, limit) + (if 2 * x > limit then 1 else 0)
  {
    var r := Insert(s, x);
    if s == [] || s[|s| - 1] <= x {
      assert r[..|s|] == s;
    } else {
      var k := |s| - 1;
      InsertCount(s[..k], x, limit);
      assert r[..k + 1] == Insert(s[..k], x);
    }
  }

  lemma {:induction false} SortedSorts(s: seq<nat>, limit: nat)
    ensures Ascending(Sorted(s)) && CountAbove(Sorted(s), limit) == CountAbove(s, limit)
  {
    if s != [] {
      SortedSorts(s[..|s| - 1], limit);
      InsertAscending(Sorted(s[..|s| - 1]), s[|s| - 1]);
      InsertCount(Sorted(s[..|s| - 1]), s[|s| - 1], limit);
    }
  }

  /** In an ascending sequence, entry k is above exactly when at least |s| - k entries are. */
  lemma {:induction false} AscendingCount(s: seq<nat>, k: nat, limit: nat)
    requires Ascending(s) && k < |s|
    ensures 2 * s[k] > limit <==> CountAbove(s, limit) >= |s| - k
  {
    var n := |s| - 1;
    if k < n {
      AscendingCount(s[..n], k, limit);
      assert s[k] <= s[n];
    } else {
      if 2 * s[n] <= limit { NoneAbove(s, limit); }
    }
  }

  lemma {:induction false} NoneAbove(s: seq<nat>, limit: nat)
    requires forall i | 0 <= i < |s| :: 2 * s[i] <= limit
    ensures CountAbove(s, limit) == 0
  {
    if s != [] { NoneAbove(s[..|s| - 1], limit); }
  }

  /** Main result on the rule: the limit is raised by exactly a tenth, rounded down, when the mean of the period
      exceeds two thirds of it and at least half of the blocks exceed half of it; otherwise it stays. */
  lemma LimitRule(sizes: seq<nat>, h: nat)
    requires h % PERIOD == 0 && h + PERIOD <= |sizes| && (h + PERIOD) % PERIOD == 0
    ensures var window := sizes[h..h + PERIOD];
            var l := LimitAt(sizes, h);
            LimitAt(sizes, h + PERIOD) ==
              if 3 * (Sum(window) / PERIOD) > 2 * l && CountAbove(window, l) >= PERIOD - PERIOD / 2 then 11 * l / 10 else l
  {
    var window, l := sizes[h..h + PERIOD], LimitAt(sizes, h);
    LimitUnfolds(sizes, h + PERIOD - 1, h);
    SortedSorts(window, l);
    AscendingCount(Sorted(window), PERIOD / 2, l);
    hide LimitAt, Sorted, Sum, CountAbove;
  }

  lemma {:induction false} FullBlocks(sizes: seq<nat>, size: nat, limit: nat)
    requires 2 * size > limit && forall i | 0 <= i < |sizes| :: sizes[i] == size
    ensures Sum(sizes) == |sizes| * size && CountAbove(sizes, limit) == |sizes|
  {
    if sizes != [] { FullBlocks(sizes[..|sizes| - 1], size, limit); }
  }

  /** A first period of 131,400 full blocks raises the limit from 1,000,000 to 1,100,000 bytes. */
  lemma FirstRaise(sizes: seq<nat>)
    requires |sizes| >= 131_400 && forall i | 0 <= i < 131_400 :: sizes[i] == 1_000_000
    ensures LimitAt(sizes, 0) == 1_000_000 && LimitAt(sizes, 131_400) == 1_100_000
  {
    hide CountAbove, Sum, NextLimit;
    var window := sizes[0..PERIOD];
    FullBlocks(window, 1_000_000, 1_000_000);
    assert Sum(window) / PERIOD == 1_000_000;
    LimitRule(sizes, 0);
    hide LimitAt;
  }

  // ---- 32-bit arithmetic ----

  /** The limit after k periods of fastest growth. */
  function Fastest(k: nat): nat { if k == 0 then MIN_MAX_BLOCK_SIZE else 11 * Fastest(k - 1) / 10 }

  lemma FastestStep(k: nat)
    ensures Fastest(k) <= Fastest(k + 1) && 10 * Fastest(k + 1) <= 11 * Fastest(k)
  {}

  lemma TenPeriods(k: nat)
    ensures 1000 * Fastest(k + 10) <= 2594 * Fastest(k)
  {
    hide Fastest;
    FastestStep(k);
    FastestStep(k + 1);
    FastestStep(k + 2);
    FastestStep(k + 3);
    FastestStep(k + 4);
    FastestStep(k + 5);
    FastestStep(k + 6);
    FastestStep(k + 7);
    FastestStep(k + 8);
    FastestStep(k + 9);
  }

  lemma {:induction false} FastestGrows(k: nat, n: nat)
    requires k <= n
    ensures Fastest(k) <= Fastest(n)
    decreases n - k
  {
    if k < n {
      FastestStep(k);
      FastestGrows(k + 1, n);
    }
  }

  lemma FastestFits()
    ensures 11 * Fastest(62) < 0x1_0000_0000
  {
    assert Fastest(2) == 1_210_000;
    TenPeriods(2);
    TenPeriods(12);
    TenPeriods(22);
    TenPeriods(32);
    TenPeriods(42);
    TenPeriods(52);
    hide Fastest;
  }

  lemma {:induction false} LimitBelowFastest(sizes: seq<nat>, k: nat)
    requires k * PERIOD <= |sizes|
    ensures k * PERIOD % PERIOD == 0 && LimitAt(sizes, k * PERIOD) <= Fastest(k)
  {
    if k > 0 {
      var h := (k - 1) * PERIOD;
      LimitBelowFastest(sizes, k - 1);
      assert h + PERIOD == k * PERIOD;
      LimitRule(sizes, h);
      FastestStep(k - 1);
      hide LimitAt, Sum, CountAbove;
    }
  }

  /** Main result: for the first 62 periods, more than fifteen years of blocks, the 32-bit arithmetic of the rule does
      not overflow, as long as blocks keep to the limit of their period. */
  lemma LimitFits(sizes: seq<nat>, k: nat, size: nat)
    requires k <= 62 && k * PERIOD <= |sizes|
    requires k * PERIOD % PERIOD == 0 && size <= LimitAt(sizes, k * PERIOD)
    ensures 11 * LimitAt(sizes, k * PERIOD) < 0x1_0000_0000 && 3 * size < 0x1_0000_0000
  {
    hide LimitAt, Fastest;
    LimitBelowFastest(sizes, k);
    FastestGrows(k, 62);
    FastestFits();
  }
}
