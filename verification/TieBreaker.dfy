/** The comparator of candidate tips (`CBlockIndexWorkComparator`): when it is an order at all, which the ordered set
    of candidates needs, and that an order is all `ChainSelect` asks of a rank. */
module TieBreaker {
  import opened BlockTree

  /** What the comparator looks at in an index entry; `ptr` is its address, `seen` its receipt time in milliseconds,
      `matured` the value of mature coins its block spends, `seqId` its number in the order of arrival. */
  datatype Tip = Tip(ptr: int, work: nat, height: nat, parent: BlockId, seen: int, matured: int, seqId: nat)

  const TIE_LIMIT: int := 13_000

  /** The first time a block was seen at each height, 0 where none was. */
  type FirstSeen = map<nat, int>

  function At(first: FirstSeen, h: nat): int { if h in first then first[h] else 0 }

  /** The comparator: is `a` less preferred than `b`? */
  predicate Less(first: FirstSeen, a: Tip, b: Tip)
  {
    if a.work > b.work then false
    else if a.work < b.work then true
    else if a.height > b.height then false
    else if a.height < b.height then true
    else
      var f := At(first, a.height);
      var early := && f != 0 && a.seen != 0 && b.seen != 0 && a.parent != NULL && b.parent != NULL && a.parent == b.parent
                   && a.seen - f < TIE_LIMIT && b.seen - f < TIE_LIMIT;
      if early && a.matured > b.matured then false
      else if early && a.matured < b.matured then true
      else if a.seqId < b.seqId then false
      else if a.seqId > b.seqId then true
      else if a.ptr < b.ptr then false
      else if a.ptr > b.ptr then true
      else false
  }

  // ---- what can go wrong ----

  /** The tie-breaker applies: siblings, both seen within thirteen seconds of the first block at their height. */
  predicate Compete(first: FirstSeen, a: Tip, b: Tip)
  {
    && a.parent == b.parent != NULL && Early(first, a) && Early(first, b)
  }

  predicate Early(first: FirstSeen, a: Tip)
  {
    a.seen != 0 && At(first, a.height) != 0 && a.seen < At(first, a.height) + TIE_LIMIT
  }

  /** `a` arrived before `b`. */
  predicate Before(a: Tip, b: Tip) { a.seqId < b.seqId || (a.seqId == b.seqId && a.ptr < b.ptr) }

  predicate Level(a: Tip, b: Tip) { a.work == b.work && a.height == b.height }

  /** `b` overtakes its older sibling `a` by spending more mature coins, while `c`, which does not compete with them,
      arrived between the two. */
  predicate Tangled(first: FirstSeen, a: Tip, c: Tip, b: Tip)
  {
    && Level(a, b) && Level(a, c) && Compete(first, a, b) && b.matured > a.matured
    && Before(a, c) && Before(c, b) && !Compete(first, c, b)
  }

  ghost predicate Untangled(first: FirstSeen, s: set<Tip>)
  {
    forall a, b, c | a in s && b in s && c in s :: !Tangled(first, a, c, b)
  }

  /** No two entries share an address. */
  ghost predicate DistinctTips(s: set<Tip>) { forall a, b | a in s && b in s && a.ptr == b.ptr :: a == b }

  // ---- the comparator in terms of arrival ----

  lemma LevelLess(first: FirstSeen, a: Tip, b: Tip)
    requires Level(a, b)
    ensures Less(first, a, b) <==>
            if Compete(first, a, b) && a.matured != b.matured then a.matured < b.matured else Before(b, a)
  {}

  lemma OtherLess(first: FirstSeen, a: Tip, b: Tip)
    requires !Level(a, b)
    ensures Less(first, a, b) <==> a.work < b.work || (a.work == b.work && a.height < b.height)
  {}

  /** Of two different entries exactly one is less than the other, whatever the times and coins. */
  lemma ComparesAll(first: FirstSeen, a: Tip, b: Tip)
    ensures !Less(first, a, a)
    ensures a.ptr != b.ptr ==> (Less(first, a, b) <==> !Less(first, b, a))
  {}

  ghost predicate Transitive(first: FirstSeen, s: set<Tip>)
  {
    forall a, b, c | a in s && b in s && c in s && Less(first, a, b) && Less(first, b, c) :: Less(first, a, c)
  }

  /** Three entries go round in a circle exactly if they are tangled. */
  lemma LevelCircle(first: FirstSeen, a: Tip, b: Tip, c: Tip)
    requires Level(a, b) && Level(b, c) && a.ptr != b.ptr && b.ptr != c.ptr && a.ptr != c.ptr
    requires Less(first, a, b) && Less(first, b, c) && !Less(first, a, c)
    ensures Tangled(first, a, b, c) || Tangled(first, b, c, a) || Tangled(first, c, a, b)
            || Tangled(first, c, b, a) || Tangled(first, b, a, c) || Tangled(first, a, c, b)
  {
    LevelLess(first, a, b);
    LevelLess(first, b, c);
    LevelLess(first, a, c);
    hide At, Less, Early;
  }

  lemma NoCircle(first: FirstSeen, s: set<Tip>, a: Tip, b: Tip, c: Tip)
    requires Untangled(first, s) && DistinctTips(s) && a in s && b in s && c in s
    requires Less(first, a, b) && Less(first, b, c)
    ensures Less(first, a, c)
  {
    ComparesAll(first, a, b);
    ComparesAll(first, b, c);
    ComparesAll(first, a, c);
    if Level(a, b) && Level(b, c) {
      if !Less(first, a, c) {
        assert a.ptr != b.ptr && b.ptr != c.ptr && a.ptr != c.ptr by { hide Less; }
        LevelCircle(first, a, b, c);
        hide Tangled;
      }
    } else {
      hide Tangled;
      if Level(a, b) { LevelLess(first, a, b); } else { OtherLess(first, a, b); }
      if Level(b, c) { LevelLess(first, b, c); } else { OtherLess(first, b, c); }
      if Level(a, c) { LevelLess(first, a, c); } else { OtherLess(first, a, c); }
    }
  }

  /** A tangled triple goes round in a circle. */
  lemma TangledCircle(first: FirstSeen, a: Tip, c: Tip, b: Tip)
    requires Tangled(first, a, c, b)
    ensures Less(first, a, b) && Less(first, b, c) && Less(first, c, a)
  {
    LevelLess(first, a, b);
    LevelLess(first, b, c);
    LevelLess(first, c, a);
  }

  /** Main result: the comparator is transitive on a set of candidates if and only if no sibling overtakes another
      across a candidate that arrived between them. */
  lemma TransitiveIff(first: FirstSeen, s: set<Tip>)
    requires DistinctTips(s)
    ensures Transitive(first, s) <==> Untangled(first, s)
  {
    if Untangled(first, s) {
      forall a, b, c | a in s && b in s && c in s && Less(first, a, b) && Less(first, b, c) ensures Less(first, a, c)
      {
        NoCircle(first, s, a, b, c);
      }
    }
    if Transitive(first, s) {
      forall a, b, c | a in s && b in s && c in s ensures !Tangled(first, a, c, b)
      {
        if Tangled(first, a, c, b) {
          TangledCircle(first, a, c, b);
          ComparesAll(first, a, c);
        }
      }
    }
  }

  /** Three blocks on which it is not: the second and the last are siblings seen within the limit, the last spends more
      mature coins, and a block of another parent arrived between them. */
  lemma CircleExists()
    ensures var first := map[5 := 1000];
            var a := Tip(1, 9, 5, 100, 1000, 0, 1);
            var c := Tip(2, 9, 5, 200, 2000, 0, 2);
            var b := Tip(3, 9, 5, 100, 3000, 7, 3);
            Less(first, a, b) && Less(first, b, c) && Less(first, c, a)
  {}

  /** Siblings alone are never tangled when receipt times follow the order of arrival. */
  lemma SiblingsUntangled(first: FirstSeen, s: set<Tip>)
    requires forall a, b | a in s && b in s :: a.parent == b.parent && a.seen > 0
    requires forall a, b | a in s && b in s && Before(a, b) :: a.seen <= b.seen
    ensures Untangled(first, s)
  {}

  // ---- the rank of a candidate ----

  /** A number that increases with preference. */
  ghost predicate Represents(first: FirstSeen, s: set<Tip>, rank: Tip -> int)
  {
    forall a, b | a in s && b in s :: Less(first, a, b) <==> rank(a) < rank(b)
  }

  ghost function Worse(first: FirstSeen, s: set<Tip>, t: Tip): set<Tip> { set a | a in s && Less(first, a, t) }

  lemma WorseGrows(first: FirstSeen, s: set<Tip>, a: Tip, b: Tip)
    requires Transitive(first, s) && a in s && b in s && Less(first, a, b)
    ensures Worse(first, s, a) < Worse(first, s, b)
  {
    hide Less;
    ComparesAll(first, a, a);
    assert a in Worse(first, s, b) && a !in Worse(first, s, a);
  }

  lemma SmallerSet<T>(a: set<T>, b: set<T>)
    requires a < b
    ensures |a| < |b|
  {
    var x :| x in b && x !in a;
    assert a <= b - {x};
    SubsetSize(a, b - {x});
  }

  lemma {:induction false} SubsetSize<T>(a: set<T>, b: set<T>)
    requires a <= b
    ensures |a| <= |b|
    decreases |a|
  {
    if a != {} {
      var x :| x in a;
      SubsetSize(a - {x}, b - {x});
    }
  }

  /** The number of worse candidates represents the comparator where it is transitive. */
  lemma CountRepresents(first: FirstSeen, s: set<Tip>)
    requires DistinctTips(s) && Transitive(first, s)
    ensures Represents(first, s, t => |Worse(first, s, t)|)
  {
    hide Less, Worse, Transitive;
    forall a, b | a in s && b in s
      ensures Less(first, a, b) <==> |Worse(first, s, a)| < |Worse(first, s, b)|
    {
      ComparesAll(first, a, b);
      if Less(first, a, b) {
        WorseGrows(first, s, a, b);
        SmallerSet(Worse(first, s, a), Worse(first, s, b));
      } else if a.ptr != b.ptr {
        WorseGrows(first, s, b, a);
        SmallerSet(Worse(first, s, b), Worse(first, s, a));
      }
    }
  }

  /** Main result: the candidates can be ranked by the comparator if and only if they are untangled. */
  lemma RankedIff(first: FirstSeen, s: set<Tip>)
    requires DistinctTips(s)
    ensures Untangled(first, s) <==> exists rank: Tip -> int :: Represents(first, s, rank)
  {
    TransitiveIff(first, s);
    hide Untangled, Less;
    if Untangled(first, s) { CountRepresents(first, s); }
    if rank: Tip -> int :| Represents(first, s, rank) {}
  }

  function Entries(tips: map<BlockId, Tip>): set<Tip> { set b | b in tips :: tips[b] }

  /** So an index of untangled entries has a rank as `ChainSelect` takes it. */
  lemma IndexIsRanked(ix: Index, first: FirstSeen, tips: map<BlockId, Tip>)
    requires tips.Keys == ix.blocks && forall b | b in tips :: tips[b].ptr == b
    requires Untangled(first, Entries(tips))
    ensures exists rank: BlockId -> int ::
              && ix.(rank := rank).Ranked()
              && forall a, b | a in tips && b in tips :: Less(first, tips[a], tips[b]) <==> rank(a) < rank(b)
  {
    hide Untangled, Less;
    var s := Entries(tips);
    assert DistinctTips(s);
    RankedIff(first, s);
    var r: Tip -> int :| Represents(first, s, r);
    var rank: BlockId -> int := b => if b in tips then r(tips[b]) else 0;
    forall a, b | a in tips && b in tips ensures Less(first, tips[a], tips[b]) <==> rank(a) < rank(b)
    {
      assert tips[a] in s && tips[b] in s;
    }
    var jx := ix.(rank := rank);
    forall a, b | a in jx.blocks && b in jx.blocks && jx.rank(a) == jx.rank(b) ensures a == b
    {
      assert a in tips && b in tips && !(rank(a) < rank(b)) && !(rank(b) < rank(a));
      ComparesAll(first, tips[a], tips[b]);
    }
    assert jx.Ranked();
  }
}
