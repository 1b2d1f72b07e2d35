/** Choosing and activating the best chain (`FindMostWorkChain`, `ActivateBestChain`, `InvalidBlockFound`). */
module ChainSelect {
  import opened BlockTree
  import opened ChainTip

  /** Every block from the root to `b` can be connected on top of its parent. */
  ghost predicate FullyValid(ix: Index, b: BlockId)
    requires ix.WellFormed() && b in ix.blocks
  {
    forall i | 0 <= i < |Path(ix, b)| :: ix.valid(Path(ix, b)[i])
  }

  /** Only blocks below which something is invalid carry a failure flag. */
  ghost predicate FlagsSound(ix: Index, failed: set<BlockId>)
    requires ix.WellFormed()
  {
    failed <= ix.blocks && forall b | b in failed :: !FullyValid(ix, b)
  }

  ghost predicate AllValid(ix: Index, v: seq<BlockId>) { forall i | 0 <= i < |v| :: ix.valid(v[i]) }

  /** No flagged block on the path to `b` outside the chain `v`. */
  ghost predicate Clear(ix: Index, v: seq<BlockId>, failed: set<BlockId>, b: BlockId)
    requires ix.WellFormed() && b in ix.blocks
  {
    forall i | 0 <= i < |Path(ix, b)| && !(i < |v| && v[i] == Path(ix, b)[i]) :: Path(ix, b)[i] !in failed
  }

  lemma FailedAncestor(ix: Index, b: BlockId, i: nat)
    requires ix.WellFormed() && b in ix.blocks && i <= ix.height(b)
    ensures Path(ix, b)[i] in ix.blocks
    ensures !FullyValid(ix, Path(ix, b)[i]) ==> !FullyValid(ix, b)
  {
    PathPrefix(ix, b, i);
    var p, c := Path(ix, b), Path(ix, b)[i];
    if !FullyValid(ix, c) {
      var j :| 0 <= j < |Path(ix, c)| && !ix.valid(Path(ix, c)[j]);
      assert p[j] == p[..i + 1][j];
    }
  }

  lemma ValidChainTip(ix: Index, v: seq<BlockId>)
    requires ix.WellFormed() && IsPath(ix, v) && AllValid(ix, v) && v != []
    ensures FullyValid(ix, v[|v| - 1])
  {}

  lemma ValidPrefix(ix: Index, v: seq<BlockId>, n: nat)
    requires AllValid(ix, v) && n <= |v|
    ensures AllValid(ix, v[..n])
  {}

  lemma HasMember(s: set<BlockId>)
    ensures s == {} || exists x :: x in s
  {
    if !(exists x :: x in s) { assert s == {}; }
  }

  // ---- the moves of the active tip ----

  /** All paths start from the same genesis block. */
  ghost predicate OneRoot(ix: Index)
  {
    forall b, c | b in ix.blocks && c in ix.blocks && b !in ix.prev && c !in ix.prev :: b == c
  }

  /** A valid block is connected at the tip, or the tip is disconnected; the genesis block stays. */
  ghost predicate TipMove(ix: Index, v: seq<BlockId>, w: seq<BlockId>)
    requires ix.WellFormed()
  {
    || (w != [] && v == w[..|w| - 1] && IsPath(ix, w) && ix.valid(w[|w| - 1]))
    || (v != [] && w == v[..|v| - 1] && (OneRoot(ix) ==> w != []))
  }

  /** The active chains in the order in which they were active. */
  ghost predicate Moves(ix: Index, trace: seq<seq<BlockId>>, from: seq<BlockId>, to: seq<BlockId>)
    requires ix.WellFormed()
  {
    && trace != [] && trace[0] == from && trace[|trace| - 1] == to
    && forall i | 0 < i < |trace| :: TipMove(ix, trace[i - 1], trace[i])
  }

  lemma NoMove(ix: Index, v: seq<BlockId>)
    requires ix.WellFormed()
    ensures Moves(ix, [v], v, v)
  {}

  lemma OneMove(ix: Index, trace: seq<seq<BlockId>>, from: seq<BlockId>, v: seq<BlockId>, w: seq<BlockId>)
    requires ix.WellFormed() && Moves(ix, trace, from, v) && TipMove(ix, v, w)
    ensures Moves(ix, trace + [w], from, w)
  {
    hide TipMove;
  }

  /** One trace after another that starts where it ends. */
  ghost function Then(s: seq<seq<BlockId>>, t: seq<seq<BlockId>>): seq<seq<BlockId>> { if t == [] then s else s + t[1..] }

  lemma MoreMoves(ix: Index, s: seq<seq<BlockId>>, t: seq<seq<BlockId>>, a: seq<BlockId>, b: seq<BlockId>, c: seq<BlockId>)
    requires ix.WellFormed() && Moves(ix, s, a, b) && Moves(ix, t, b, c)
    ensures Moves(ix, Then(s, t), a, c)
  {
    hide TipMove;
    var r := Then(s, t);
    forall i | 0 < i < |r| ensures TipMove(ix, r[i - 1], r[i])
    {
      if i >= |s| {
        var j := i - |s| + 1;
        assert r[i] == t[j] && r[i - 1] == t[j - 1];
      }
    }
  }

  /** Two chains from one genesis block agree at height 0, so it is never disconnected. */
  lemma RootStays(ix: Index, v: seq<BlockId>, w: seq<BlockId>)
    requires ix.WellFormed() && IsPath(ix, v) && IsPath(ix, w) && v != [] && w != []
    requires var h := ix.height(v[|v| - 1]); !(h < |w| && w[h] == v[|v| - 1])
    ensures TipMove(ix, v, v[..|v| - 1])
  {
    SameRoot(ix, v, w);
    IsPathAt(ix, v, |v| - 1);
  }

  lemma StaleMove(ix: Index, trace: seq<seq<BlockId>>, from: seq<BlockId>, v: seq<BlockId>, w: seq<BlockId>)
    requires ix.WellFormed() && IsPath(ix, v) && IsPath(ix, w) && v != []
    requires var h := ix.height(v[|v| - 1]); !(h < |w| && w[h] == v[|v| - 1])
    ensures w != [] && Moves(ix, trace, from, v) ==> Moves(ix, trace + [v[..|v| - 1]], from, v[..|v| - 1])
  {
    hide Moves, TipMove, IsPath;
    if w != [] && Moves(ix, trace, from, v) {
      RootStays(ix, v, w);
      OneMove(ix, trace, from, v, v[..|v| - 1]);
    }
  }

  lemma SameRoot(ix: Index, v: seq<BlockId>, w: seq<BlockId>)
    requires ix.WellFormed() && IsPath(ix, v) && IsPath(ix, w) && v != [] && w != []
    ensures OneRoot(ix) ==> v[0] == w[0]
  {
    PrevOnPath(ix, v, 0);
    PrevOnPath(ix, w, 0);
    IsPathAt(ix, v, 0);
    IsPathAt(ix, w, 0);
  }

  class Selector {
    var ix: Index
    const active: Chain
    const mostWork: Chain
    var failed: set<BlockId>
    var candidates: set<BlockId>

    /** `setBlockIndexValid` holds exactly the blocks without a failure flag. */
    ghost predicate Valid()
      reads this, active, mostWork
    {
      && ix.WellFormed() && ix.Ranked() && ix.Accumulates()
      && active != mostWork && active.isActive && !mostWork.isActive
      && IsPath(ix, active.vChain) && IsPath(ix, mostWork.vChain)
      && active.LimitsRight(ix)
      && AllValid(ix, active.vChain)
      && FlagsSound(ix, failed) && candidates == ix.blocks - failed
    }

    /** A node that knows no block yet. */
    constructor (index: Index)
      requires index.WellFormed() && index.blocks == {}
      ensures Valid() && ix == index && active.vChain == mostWork.vChain == []
    {
      ix, failed, candidates := index, {}, {};
      active := new Chain(true);
      mostWork := new Chain(false);
      new;
      NoLimits(active.limits);
    }

    /** A new block enters the index, unflagged, whatever its ancestors are. */
    method AddToBlockIndex(b: BlockId, next: Index) returns (ghost trace: seq<seq<BlockId>>)
      requires Valid() && Grows(ix, next, b)
      modifies this, active, mostWork
      ensures Valid() && ix == next && BestIsActive()
      ensures Moves(ix, trace, old(active.vChain), active.vChain)
    {
      FlagsGrow(ix, next, b, failed);
      ChainGrows(ix, next, b, active.vChain);
      ChainGrows(ix, next, b, mostWork.vChain);
      assert b !in failed;
      hide Path, IsPath, AllValid, FlagsSound, SizesOf, LimitsExact;
      ix, candidates := next, candidates + {b};
      trace := ActivateBestChain();
    }

    /** In case the current best is flagged, do not consider it. */
    method PopFailed()
      requires Valid()
      modifies this`candidates, mostWork
      ensures Valid() && candidates == old(candidates)
      ensures mostWork.Tip() == NULL || (mostWork.Tip() in ix.blocks && mostWork.Tip() !in failed)
    {
      hide FlagsSound, AllValid, Chain.LimitsRight, Path,
        Index.WellFormed, Index.Ranked, Index.Accumulates;
      while mostWork.Tip() != NULL && mostWork.Tip() in failed
        invariant Valid() && candidates == old(candidates)
        decreases |mostWork.vChain|
      {
        var tip := mostWork.Tip();
        PrevPath(ix, mostWork.vChain);
        candidates := candidates - {tip};
        mostWork.SetTip(ix, ix.Prev(tip));
      }
      if mostWork.vChain != [] { IsPathAt(ix, mostWork.vChain, |mostWork.vChain| - 1); }
    }

    /** Looks for a flagged block between `b` and the active chain. */
    method WalkBack(b: BlockId) returns (bad: BlockId)
      requires Valid() && b in ix.blocks
      ensures bad == NULL ==> Clear(ix, active.vChain, failed, b)
      ensures bad != NULL ==> bad in failed && ix.height(bad) <= ix.height(b) && Path(ix, b)[ix.height(bad)] == bad
    {
      hide FlagsSound, AllValid, Chain.LimitsRight, Path, IsPath, Clear;
      ghost var p := Path(ix, b);
      PathIsPath(ix, b);
      var test := b;
      ghost var k := |p|;
      while test != NULL && !active.Contains(ix, test)
        invariant 0 <= k <= |p|
        invariant if k == 0 then test == NULL else test in ix.blocks && ix.height(test) == k - 1 && p[k - 1] == test
        invariant forall i | k <= i < |p| :: p[i] !in failed
        decreases k
      {
        if test in failed { return test; }
        StepDown(ix, p, k - 1);
        test := ix.Prev(test);
        k := k - 1;
      }
      WalkedClear(ix, active.vChain, failed, b, k);
      bad := NULL;
    }

    /** Flags every block from `b` down to, but not including, its flagged ancestor. */
    method FlagBranch(b: BlockId, bad: BlockId)
      requires Valid() && b in ix.blocks && b !in failed && bad in failed
      requires ix.height(bad) <= ix.height(b) && Path(ix, b)[ix.height(bad)] == bad
      modifies this`failed, this`candidates
      ensures Valid() && old(failed) <= failed && b in failed
    {
      hide AllValid, Chain.LimitsRight, Path, IsPath, FullyValid, FlagsSound;
      ghost var p := Path(ix, b);
      PathIsPath(ix, b);
      Flagged(ix, failed, bad);
      var f := b;
      while f != bad
        invariant Valid() && old(failed) <= failed && (f == b || b in failed)
        invariant f in ix.blocks && ix.height(bad) <= ix.height(f) < |p| && p[ix.height(f)] == f
        decreases ix.height(f)
      {
        FlaggedBelow(ix, b, ix.height(bad), ix.height(f));
        FlagOne(ix, failed, candidates, f);
        failed := failed + {f};
        candidates := candidates - {f};
        assert ix.height(f) != ix.height(bad);
        StepDown(ix, p, ix.height(f));
        f := ix.Prev(f);
      }
    }

    /** The last element of the candidate set in its order. */
    method PickBest() returns (b: BlockId)
      requires candidates != {}
      ensures b in candidates && forall c | c in candidates :: ix.rank(c) <= ix.rank(b)
    {
      var rest := candidates;
      HasMember(rest);
      b :| b in rest;
      while rest != {}
        invariant b in candidates && rest <= candidates
        invariant forall c | c in candidates - rest :: ix.rank(c) <= ix.rank(b)
        decreases rest
      {
        HasMember(rest);
        var c :| c in rest;
        if ix.rank(b) < ix.rank(c) { b := c; }
        rest := rest - {c};
      }
    }

    /** Makes `mostWork` the best chain not known to be invalid. If its path still holds a flagged block outside
        the active chain, then some block was flagged by this very call. */
    method FindMostWorkChain()
      requires Valid()
      modifies this`failed, this`candidates, mostWork
      ensures Valid() && old(failed) <= failed
      ensures mostWork.Tip() == NULL ==> candidates == {}
      ensures mostWork.Tip() != NULL ==>
        && mostWork.Tip() in ix.blocks
        && (forall c | c in candidates :: ix.rank(c) <= ix.rank(mostWork.Tip()))
        && (failed != old(failed) || Clear(ix, active.vChain, failed, mostWork.Tip()))
    {
      hide FlagsSound, AllValid, Chain.LimitsRight, Path, IsPath, Clear, Index.WellFormed, Index.Ranked, Index.Accumulates;
      PopFailed();
      var tip := mostWork.Tip();
      var best := NULL;
      while true
        invariant Valid() && old(failed) <= failed && mostWork.Tip() == tip
        invariant tip == NULL || tip in candidates || (tip in ix.blocks && failed != old(failed))
        decreases candidates
      {
        if candidates == {} { return; }
        best := PickBest();
        var bad := WalkBack(best);
        if bad == NULL { break; }
        FlagBranch(best, bad);
      }
      if tip != NULL && !(ix.rank(tip) < ix.rank(best)) {
        SameRank(ix, tip, best);
        return;
      }
      mostWork.SetTip(ix, best);
      TipOfPath(ix, best);
    }

    /** Disconnects active blocks that are not on the best chain. */
    method DisconnectStale() returns (ghost trace: seq<seq<BlockId>>)
      requires Valid()
      modifies active
      ensures Valid() && active.vChain <= mostWork.vChain
      ensures mostWork.vChain != [] ==> Moves(ix, trace, old(active.vChain), active.vChain)
      ensures Joined(old(active.vChain), mostWork.vChain, |active.vChain|)
    {
      hide FlagsSound, AllValid, Chain.LimitsRight, Path, IsPath, Joined, Moves, TipMove,
        Index.WellFormed, Index.Ranked, Index.Accumulates;
      ghost var was, n := active.vChain, |active.vChain|;
      JoinedStart(was, mostWork.vChain);
      trace := [was];
      NoMove(ix, was);
      while active.Tip() != NULL && !mostWork.Contains(ix, active.Tip())
        invariant Valid() && n == |active.vChain| <= |was| && active.vChain == was[..n]
        invariant Joined(was, mostWork.vChain, n)
        invariant mostWork.vChain != [] ==> Moves(ix, trace, was, active.vChain)
        decreases n
      {
        n := n - 1;
        StaleMove(ix, trace, was, active.vChain, mostWork.vChain);
        trace := trace + [active.vChain[..n]];
        IsPathAt(ix, active.vChain, n);
        JoinedPop(was, mostWork.vChain, n);
        PrevPath(ix, active.vChain);
        ValidPrefix(ix, active.vChain, n);
        assert active.vChain[..n] == was[..n];
        active.SetTip(ix, ix.Prev(active.Tip()));
      }
      EndOfPath(ix, active.vChain);
      MeetingPoint(ix, active.vChain, mostWork.vChain);
    }

    /** Connects the blocks of the best chain one by one; a block that is refused is flagged. */
    method ConnectNew() returns (ok: bool, ghost at: nat, ghost trace: seq<seq<BlockId>>)
      requires Valid() && active.vChain <= mostWork.vChain && mostWork.vChain != []
      modifies this`failed, this`candidates, active
      ensures Valid()
      ensures ok ==> active.vChain == mostWork.vChain && failed == old(failed)
      ensures !ok ==> |old(active.vChain)| <= at < |mostWork.vChain| && failed == old(failed) + {mostWork.vChain[at]}
      ensures Moves(ix, trace, old(active.vChain), active.vChain)
    {
      hide FlagsSound, Chain.LimitsRight, Path, IsPath, Moves, TipMove,
        Index.WellFormed, Index.Ranked, Index.Accumulates;
      ok, at, trace := true, 0, [active.vChain];
      NoMove(ix, active.vChain);
      EndOfPath(ix, mostWork.vChain);
      while !active.Contains(ix, mostWork.Tip())
        invariant Valid() && |old(active.vChain)| <= |active.vChain| && active.vChain <= mostWork.vChain
        invariant failed == old(failed) && Moves(ix, trace, old(active.vChain), active.vChain)
        decreases |mostWork.vChain| - |active.vChain|
      {
        at := |active.vChain|;
        NotYetConnected(ix, active.vChain, mostWork.vChain);
        var c := mostWork.At(active.Height() + 1);
        if !ix.valid(c) {
          InvalidNotFully(ix, mostWork.vChain, at);
          FlagOne(ix, failed, candidates, c);
          failed, candidates := failed + {c}, candidates - {c};
          return false, at, trace;
        }
        NextOnPath(ix, mostWork.vChain, at);
        ConnectMove(ix, active.vChain, mostWork.vChain, at);
        OneMove(ix, trace, old(active.vChain), active.vChain, mostWork.vChain[..at + 1]);
        trace := trace + [mostWork.vChain[..at + 1]];
        active.SetTip(ix, c);
      }
      FullyConnected(ix, active.vChain, mostWork.vChain);
    }

    /** No block could be preferred to the active tip: it ends a valid chain, and every block that is still a
        candidate, or that ends a valid chain, ranks at most as high. */
    ghost predicate BestIsActive()
      requires ix.WellFormed()
      reads this, active, mostWork
    {
      && active.vChain == mostWork.vChain
      && (active.Tip() == NULL ==> forall b | b in ix.blocks :: !FullyValid(ix, b))
      && (active.Tip() != NULL ==>
            && active.Tip() in ix.blocks && FullyValid(ix, active.Tip())
            && (forall b | b in ix.blocks && (b in candidates || FullyValid(ix, b)) :: ix.rank(b) <= ix.rank(active.Tip())))
    }

    /** One round: choose, disconnect, connect. A round that meets an invalid block leaves fewer candidates. */
    method Round() returns (complete: bool, ghost trace: seq<seq<BlockId>>)
      requires Valid()
      modifies this`failed, this`candidates, active, mostWork
      ensures Valid() && old(failed) <= failed
      ensures complete ==> BestIsActive()
      ensures !complete ==> candidates < old(candidates)
      ensures Moves(ix, trace, old(active.vChain), active.vChain)
    {
      hide FlagsSound, Chain.LimitsRight, Path, IsPath, Clear, FullyValid, Joined, AllValid, Moves,
        Index.WellFormed, Index.Ranked, Index.Accumulates;
      ghost var v0, f0 := active.vChain, failed;
      FindMostWorkChain();
      EndOfPath(ix, mostWork.vChain);
      if mostWork.Tip() == NULL {
        ValidTipUnflagged(ix, failed, active.vChain);
        NoMove(ix, v0);
        return true, [v0];
      }
      ghost var f1 := failed;
      trace := DisconnectStale();
      ghost var joined, mid := |active.vChain|, active.vChain;
      ghost var at, up;
      complete, at, up := ConnectNew();
      MoreMoves(ix, trace, up, v0, mid, active.vChain);
      trace := Then(trace, up);
      ValidTipUnflagged(ix, failed, active.vChain);
      if !complete {
        if f1 == f0 { NewlyFlagged(ix, v0, f0, mostWork.vChain, joined, at); }
        FewerCandidates(ix, f0, f1, failed, mostWork.vChain[at]);
      }
    }

    /** Main result: the loop ends, because every round that meets an invalid block flags a block that was not
        flagged before, and it ends with the best valid chain active. */
    method ActivateBestChain() returns (ghost trace: seq<seq<BlockId>>)
      requires Valid()
      modifies this`failed, this`candidates, active, mostWork
      ensures Valid() && old(failed) <= failed && BestIsActive()
      ensures Moves(ix, trace, old(active.vChain), active.vChain)
    {
      hide Moves;
      var complete := false;
      trace := [active.vChain];
      NoMove(ix, active.vChain);
      while !complete
        invariant Valid() && old(failed) <= failed
        invariant Moves(ix, trace, old(active.vChain), active.vChain)
        invariant complete ==> BestIsActive()
        decreases candidates, if complete then 0 else 1
      {
        ghost var before, v := candidates, active.vChain;
        ghost var more;
        complete, more := Round();
        MoreMoves(ix, trace, more, old(active.vChain), v, active.vChain);
        trace := Then(trace, more);
        assert candidates <= before;
      }
    }
  }

  lemma ConnectMove(ix: Index, v: seq<BlockId>, w: seq<BlockId>, at: nat)
    requires ix.WellFormed() && IsPath(ix, w) && at < |w| && v == w[..at] && ix.valid(w[at])
    ensures TipMove(ix, v, w[..at + 1])
  {
    IsPathAt(ix, w, at);
    PathIsPath(ix, w[at]);
    assert w[..at + 1][..at] == v;
  }

  /** `next` is `ix` with one more block; the order of preference may have changed. */
  ghost predicate Grows(ix: Index, next: Index, b: BlockId)
  {
    && next.WellFormed() && next.Ranked() && next.Accumulates()
    && b !in ix.blocks && next.blocks == ix.blocks + {b}
    && (forall c | c in ix.blocks :: (c in next.prev <==> c in ix.prev) && next.Prev(c) == ix.Prev(c))
    && (forall c | c in ix.blocks ::
          next.height(c) == ix.height(c) && next.size(c) == ix.size(c) && next.valid(c) == ix.valid(c))
  }

  lemma {:induction false} PathGrows(ix: Index, next: Index, b: BlockId, c: BlockId)
    requires ix.WellFormed() && Grows(ix, next, b) && c in ix.blocks
    ensures Path(next, c) == Path(ix, c)
    decreases ix.height(c)
  {
    assert next.Prev(c) == ix.Prev(c);
    if c in ix.prev { PathGrows(ix, next, b, ix.prev[c]); }
  }

  lemma FlagsGrow(ix: Index, next: Index, b: BlockId, failed: set<BlockId>)
    requires ix.WellFormed() && Grows(ix, next, b) && FlagsSound(ix, failed)
    ensures FlagsSound(next, failed)
  {
    forall c | c in failed ensures !FullyValid(next, c)
    {
      PathGrows(ix, next, b, c);
      var i :| 0 <= i < |Path(ix, c)| && !ix.valid(Path(ix, c)[i]);
      PathPrefix(ix, c, i);
    }
  }

  lemma ChainGrows(ix: Index, next: Index, b: BlockId, v: seq<BlockId>)
    requires ix.WellFormed() && Grows(ix, next, b) && IsPath(ix, v)
    ensures IsPath(next, v) && SizesOf(next, v) == SizesOf(ix, v) && (AllValid(ix, v) ==> AllValid(next, v))
  {
    if v != [] { PathGrows(ix, next, b, v[|v| - 1]); }
    var s, s' := SizesOf(ix, v), SizesOf(next, v);
    forall i | 0 <= i < |v| ensures s'[i] == s[i] && next.valid(v[i]) == ix.valid(v[i]) { IsPathAt(ix, v, i); }
    assert s == s';
  }

  /** Where the two chains agree, the block is below height n. */
  ghost predicate Joined(was: seq<BlockId>, w: seq<BlockId>, n: nat)
  {
    forall i | 0 <= i < |was| && i < |w| && was[i] == w[i] :: i < n
  }

  lemma JoinedStart(was: seq<BlockId>, w: seq<BlockId>)
    ensures Joined(was, w, |was|)
  {}

  lemma JoinedPop(was: seq<BlockId>, w: seq<BlockId>, n: nat)
    requires Joined(was, w, n + 1) && n < |was| && !(n < |w| && w[n] == was[n])
    ensures Joined(was, w, n)
  {}

  lemma EndOfPath(ix: Index, v: seq<BlockId>)
    requires ix.WellFormed() && IsPath(ix, v)
    ensures v != [] ==> v[|v| - 1] in ix.blocks && v[|v| - 1] != NULL && ix.height(v[|v| - 1]) == |v| - 1
  {
    if v != [] { IsPathAt(ix, v, |v| - 1); }
  }

  /** Fully valid blocks are never flagged; the end of a valid chain is one. */
  lemma ValidTipUnflagged(ix: Index, failed: set<BlockId>, v: seq<BlockId>)
    requires ix.WellFormed() && FlagsSound(ix, failed) && IsPath(ix, v) && AllValid(ix, v)
    ensures v != [] ==> v[|v| - 1] in ix.blocks - failed && FullyValid(ix, v[|v| - 1])
    ensures forall b | b in ix.blocks && FullyValid(ix, b) :: b in ix.blocks - failed
  {
    if v != [] {
      ValidChainTip(ix, v);
      IsPathAt(ix, v, |v| - 1);
    }
    hide FullyValid;
  }

  lemma FewerCandidates(ix: Index, f0: set<BlockId>, f1: set<BlockId>, f2: set<BlockId>, c: BlockId)
    requires ix.WellFormed() && FlagsSound(ix, f2)
    requires f0 <= f1 && f2 == f1 + {c} && (f1 != f0 || c !in f0)
    ensures ix.blocks - f2 < ix.blocks - f0
  {
    if f1 == f0 {
      assert c in ix.blocks - f0 && c !in ix.blocks - f2;
    } else {
      assert f1 == f0 + (f1 - f0);
      HasMember(f1 - f0);
      var x :| x in f1 - f0;
      assert x in ix.blocks - f0 && x !in ix.blocks - f2;
    }
  }

  lemma Flagged(ix: Index, failed: set<BlockId>, b: BlockId)
    requires ix.WellFormed() && FlagsSound(ix, failed) && b in failed
    ensures b in ix.blocks && !FullyValid(ix, b)
  {}

  /** One step of a walk towards the root. */
  lemma StepDown(ix: Index, p: seq<BlockId>, h: nat)
    requires ix.WellFormed() && IsPath(ix, p) && h < |p|
    ensures var q := ix.Prev(p[h]);
            if h == 0 then q == NULL else q in ix.blocks && ix.height(q) == h - 1 && p[h - 1] == q
  {
    PrevOnPath(ix, p, h);
    if h > 0 { IsPathAt(ix, p, h - 1); }
  }

  lemma FlagOne(ix: Index, failed: set<BlockId>, candidates: set<BlockId>, f: BlockId)
    requires ix.WellFormed() && FlagsSound(ix, failed) && candidates == ix.blocks - failed
    requires f in ix.blocks && !FullyValid(ix, f)
    ensures FlagsSound(ix, failed + {f}) && candidates - {f} == ix.blocks - (failed + {f})
  {
    hide FullyValid;
  }

  lemma WalkedClear(ix: Index, v: seq<BlockId>, failed: set<BlockId>, b: BlockId, k: nat)
    requires ix.WellFormed() && b in ix.blocks && IsPath(ix, v) && k <= |Path(ix, b)|
    requires k > 0 ==> k <= |v| && v[k - 1] == Path(ix, b)[k - 1]
    requires forall i | k <= i < |Path(ix, b)| :: Path(ix, b)[i] !in failed
    ensures Clear(ix, v, failed, b)
  {
    var p := Path(ix, b);
    PathIsPath(ix, b);
    hide Path, IsPath;
    if k > 0 {
      PathsAgreeBelow(ix, v, p, k - 1);
      forall i | 0 <= i < k ensures v[i] == p[i] { assert v[i] == v[..k][i]; }
    }
  }

  lemma PrevPath(ix: Index, v: seq<BlockId>)
    requires ix.WellFormed() && IsPath(ix, v) && v != []
    ensures ix.Prev(v[|v| - 1]) == NULL || ix.Prev(v[|v| - 1]) in ix.blocks
    ensures v[|v| - 1] in ix.blocks && PathTo(ix, ix.Prev(v[|v| - 1])) == v[..|v| - 1]
  {
    var n := |v| - 1;
    IsPathAt(ix, v, n);
    PrevOnPath(ix, v, n);
    if n > 0 { IsPathAt(ix, v, n - 1); }
  }

  /** A block above a block that is not fully valid is not fully valid. */
  lemma FlaggedBelow(ix: Index, b: BlockId, i: nat, j: nat)
    requires ix.WellFormed() && b in ix.blocks && i <= j <= ix.height(b)
    requires Path(ix, b)[i] in ix.blocks && !FullyValid(ix, Path(ix, b)[i])
    ensures Path(ix, b)[j] in ix.blocks && !FullyValid(ix, Path(ix, b)[j])
  {
    PathPrefix(ix, b, j);
    FailedAncestor(ix, Path(ix, b)[j], i);
  }

  lemma SameRank(ix: Index, a: BlockId, b: BlockId)
    requires ix.Ranked() && a in ix.blocks && b in ix.blocks
    ensures ix.rank(a) == ix.rank(b) ==> a == b
  {}

  lemma TipOfPath(ix: Index, b: BlockId)
    requires ix.WellFormed() && b in ix.blocks
    ensures Path(ix, b) != [] && Path(ix, b)[|Path(ix, b)| - 1] == b && PathTo(ix, b) == Path(ix, b)
  {}

  lemma MeetingPoint(ix: Index, v: seq<BlockId>, w: seq<BlockId>)
    requires ix.WellFormed() && IsPath(ix, v) && IsPath(ix, w)
    requires v == [] || (ix.height(v[|v| - 1]) < |w| && w[ix.height(v[|v| - 1])] == v[|v| - 1])
    ensures v <= w
  {
    if v != [] {
      IsPathAt(ix, v, |v| - 1);
      PathsAgreeBelow(ix, v, w, |v| - 1);
    }
  }

  lemma NotYetConnected(ix: Index, v: seq<BlockId>, w: seq<BlockId>)
    requires ix.WellFormed() && IsPath(ix, w) && w != [] && v <= w
    requires var h := ix.height(w[|w| - 1]); !(h < |v| && v[h] == w[|w| - 1])
    ensures |v| < |w| && w[|v|] in ix.blocks
  {
    IsPathAt(ix, w, |w| - 1);
    if |v| < |w| { IsPathAt(ix, w, |v|); }
  }

  lemma FullyConnected(ix: Index, v: seq<BlockId>, w: seq<BlockId>)
    requires ix.WellFormed() && IsPath(ix, w) && w != [] && v <= w
    requires var h := ix.height(w[|w| - 1]); h < |v| && v[h] == w[|w| - 1]
    ensures v == w
  {
    IsPathAt(ix, w, |w| - 1);
  }

  lemma NextOnPath(ix: Index, w: seq<BlockId>, i: nat)
    requires ix.WellFormed() && IsPath(ix, w) && i < |w|
    ensures w[i] != NULL && w[i] in ix.blocks && PathTo(ix, w[i]) == w[..i + 1]
  {
    IsPathAt(ix, w, i);
  }

  lemma InvalidNotFully(ix: Index, w: seq<BlockId>, i: nat)
    requires ix.WellFormed() && IsPath(ix, w) && i < |w| && !ix.valid(w[i])
    ensures w[i] in ix.blocks && !FullyValid(ix, w[i])
  {
    IsPathAt(ix, w, i);
    assert Path(ix, w[i])[i] == w[i];
  }

  /** The refused block had no flag, if the path to the chosen tip was clear of flags. */
  lemma NewlyFlagged(ix: Index, v0: seq<BlockId>, failed: set<BlockId>, w: seq<BlockId>, joined: nat, at: nat)
    requires ix.WellFormed() && IsPath(ix, w) && w != [] && w[|w| - 1] in ix.blocks
    requires Clear(ix, v0, failed, w[|w| - 1]) && joined <= at < |w|
    requires Joined(v0, w, joined)
    ensures w[at] !in failed
  {
    assert Path(ix, w[|w| - 1])[at] == w[at];
  }
}
