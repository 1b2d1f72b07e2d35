/** Every operation of the address manager keeps its invariant. */
module AddrManInv {
  import opened Basics
  import opened AddrMan

  // ---- counting holders ----

  lemma HoldersInsert(news: seq<set<Id>>, b: nat, id: Id, j: Id)
    requires b < |news|
    ensures var r := news[b := news[b] + {id}];
            Holders(r, j) == if j == id then Holders(news, j) + {b} else Holders(news, j)
  {}

  lemma HoldersRemove(news: seq<set<Id>>, b: nat, id: Id, j: Id)
    requires b < |news|
    ensures var r := news[b := news[b] - {id}];
            Holders(r, j) == if j == id then Holders(news, j) - {b} else Holders(news, j)
  {}

  lemma HoldersWithout(news: seq<set<Id>>, id: Id, j: Id)
    ensures Holders(Without(news, id), j) == if j == id then {} else Holders(news, j)
  {}

  // ---- creating an entry, already counted once ----

  /** `Created` followed by the increment of the reference count in `Add_`. */
  function CreatedRef(s: Tables, i: Info): Tables
  {
    var t := Created(s, i);
    SetInfo(t, s.idCount, t.info[s.idCount].(refCount := 1))
  }

  lemma CreateRandom(s: Tables, i: Info)
    requires RandomOk(s.info, s.random) && s.idCount !in s.info
    ensures RandomOk(CreatedRef(s, i).info, CreatedRef(s, i).random)
  {}

  lemma CreateAddr(s: Tables, i: Info)
    requires AddrOk(s.info, s.addr) && s.idCount !in s.info && i.addr.net !in s.addr
    ensures AddrOk(CreatedRef(s, i).info, CreatedRef(s, i).addr)
  {}

  lemma CreateNew(s: Tables, i: Info)
    requires NewOk(s.info, s.news, NOBODY) && s.idCount !in s.info
    ensures NewOk(CreatedRef(s, i).info, s.news, s.idCount)
  {
    assert Holders(s.news, s.idCount) == {};
  }

  lemma CreateTried(env: Env, s: Tables, i: Info)
    requires TriedOk(env, s.info, s.tried) && s.idCount !in s.info
    ensures TriedOk(env, CreatedRef(s, i).info, s.tried)
  {}

  lemma AddCounts(info: map<Id, Info>, nNew: int, nTried: int, id: nat, i: Info)
    requires CountsOk(info, nNew, nTried, id) && !i.inTried
    ensures id !in info && CountsOk(info[id := i], nNew + 1, nTried, id + 1)
  {
    assert NewIds(info[id := i]) == NewIds(info) + {id};
    assert TriedIds(info[id := i]) == TriedIds(info);
  }

  lemma CreatedForm(s: Tables, i: Info)
    ensures var e := i.(refCount := 1, inTried := false, randomPos := |s.random|);
            CreatedRef(s, i).info == s.info[s.idCount := e]
  {
    var e := i.(refCount := 1, inTried := false, randomPos := |s.random|);
    assert s.info[s.idCount := e.(refCount := 0)][s.idCount := e] == s.info[s.idCount := e];
  }

  lemma CreateCounts(s: Tables, i: Info)
    requires CountsOk(s.info, s.nNew, s.nTried, s.idCount)
    ensures var t := CreatedRef(s, i); CountsOk(t.info, t.nNew, t.nTried, t.idCount)
    ensures s.idCount !in s.info
  {
    hide CountsOk;
    CreatedForm(s, i);
    AddCounts(s.info, s.nNew, s.nTried, s.idCount, i.(refCount := 1, inTried := false, randomPos := |s.random|));
  }

  lemma CreateInv(env: Env, s: Tables, i: Info)
    requires Inv(env, s, NOBODY) && i.addr.net !in s.addr
    ensures Inv(env, CreatedRef(s, i), s.idCount)
  {
    hide RandomOk, AddrOk, NewOk, TriedOk, CountsOk;
    CreateCounts(s, i);
    CreateRandom(s, i);
    CreateAddr(s, i);
    CreateNew(s, i);
    CreateTried(env, s, i);
  }

  // ---- changing an entry's statistics or its reference count ----

  predicate SamePlace(a: Info, b: Info) { a.addr == b.addr && a.inTried == b.inTried && a.randomPos == b.randomPos }

  lemma TouchRandomAddr(s: Tables, id: Id, i: Info)
    requires id in s.info && SamePlace(s.info[id], i) && RandomOk(s.info, s.random) && AddrOk(s.info, s.addr)
    ensures RandomOk(s.info[id := i], s.random) && AddrOk(s.info[id := i], s.addr)
  {}

  lemma TouchCounts(s: Tables, id: Id, i: Info)
    requires id in s.info && SamePlace(s.info[id], i) && CountsOk(s.info, s.nNew, s.nTried, s.idCount)
    ensures CountsOk(s.info[id := i], s.nNew, s.nTried, s.idCount)
  {
    assert NewIds(s.info[id := i]) == NewIds(s.info);
    assert TriedIds(s.info[id := i]) == TriedIds(s.info);
  }

  lemma TouchTried(env: Env, s: Tables, id: Id, i: Info)
    requires id in s.info && SamePlace(s.info[id], i) && TriedOk(env, s.info, s.tried)
    requires i.inTried ==> i.refCount == 0
    ensures TriedOk(env, s.info[id := i], s.tried)
  {
    var info := s.info[id := i];
    hide Distinct;
    assert TriedBucket(env, i) == TriedBucket(env, s.info[id]);
    hide TriedBucket;
  }

  lemma TouchNew(s: Tables, id: Id, i: Info, x: int)
    requires id in s.info && SamePlace(s.info[id], i) && i.refCount == s.info[id].refCount && NewOk(s.info, s.news, x)
    ensures NewOk(s.info[id := i], s.news, x)
  {
    hide Holders;
  }

  lemma BumpNew(s: Tables, id: Id, i: Info)
    requires id in s.info && SamePlace(s.info[id], i) && !i.inTried && NewOk(s.info, s.news, NOBODY)
    requires i.refCount == s.info[id].refCount + 1 <= MAX_REFS
    ensures NewOk(s.info[id := i], s.news, id)
  {
    hide Holders;
  }

  lemma TriedUnreferenced(env: Env, s: Tables, id: Id)
    requires TriedOk(env, s.info, s.tried) && id in s.info && s.info[id].inTried
    ensures s.info[id].refCount == 0
  {}

  /** Time stamps, attempts and services do not matter to the invariant. */
  lemma TouchInv(env: Env, s: Tables, id: Id, i: Info, x: int)
    requires Inv(env, s, x) && id in s.info && SamePlace(s.info[id], i) && i.refCount == s.info[id].refCount
    ensures Inv(env, SetInfo(s, id, i), x)
  {
    hide RandomOk, AddrOk, NewOk, TriedOk, CountsOk;
    TouchRandomAddr(s, id, i);
    TouchCounts(s, id, i);
    if i.inTried { TriedUnreferenced(env, s, id); }
    TouchTried(env, s, id, i);
    TouchNew(s, id, i, x);
  }

  /** Counting one more reference before it is listed. */
  lemma BumpInv(env: Env, s: Tables, id: Id, i: Info)
    requires Inv(env, s, NOBODY) && id in s.info && SamePlace(s.info[id], i)
    requires !i.inTried && i.refCount == s.info[id].refCount + 1 <= MAX_REFS
    ensures Inv(env, SetInfo(s, id, i), id)
  {
    hide RandomOk, AddrOk, NewOk, TriedOk, CountsOk;
    TouchRandomAddr(s, id, i);
    TouchCounts(s, id, i);
    TouchTried(env, s, id, i);
    BumpNew(s, id, i);
  }

  // ---- listing the counted reference ----

  lemma InsertInv(env: Env, s: Tables, b: nat, id: Id)
    requires Inv(env, s, id) && id in s.info && !s.info[id].inTried
    requires b < |s.news| && id !in s.news[b] && |s.news[b]| < NEW_SIZE
    ensures Inv(env, InsertNew(s, b, id), NOBODY)
  {
    hide RandomOk, AddrOk, TriedOk, CountsOk;
    var t := InsertNew(s, b, id);
    assert |s.news[b] + {id}| == |s.news[b]| + 1;
    forall j | j in s.info && !s.info[j].inTried
      ensures s.info[j].refCount == |Holders(t.news, j)| && 1 <= s.info[j].refCount <= MAX_REFS
    {
      HoldersInsert(s.news, b, id, j);
    }
    hide Holders;
    assert NewOk(t.info, t.news, NOBODY);
  }

  // ---- swapping in the random vector ----

  /** Entries are the same up to their position in the random vector. */
  ghost predicate Moved(a: map<Id, Info>, b: map<Id, Info>)
  {
    a.Keys == b.Keys && forall id | id in a :: b[id] == a[id].(randomPos := b[id].randomPos)
  }

  lemma MoveOne(a: map<Id, Info>, id: Id, p: int)
    requires id in a
    ensures Moved(a, a[id := a[id].(randomPos := p)])
  {}

  lemma MovedTwice(a: map<Id, Info>, b: map<Id, Info>, c: map<Id, Info>)
    requires Moved(a, b) && Moved(b, c)
    ensures Moved(a, c)
  {}

  lemma MovedHas(a: map<Id, Info>, b: map<Id, Info>, id: Id)
    requires Moved(a, b) && id in a
    ensures id in b
  {}

  lemma SwapMoves(s: Tables, p: nat, q: nat)
    requires CanSwap(s, p, q)
    ensures Moved(s.info, Swapped(s, p, q).info) && |Swapped(s, p, q).random| == |s.random|
  {
    if p == q { return; }
    hide Moved;
    var a, b := s.random[p], s.random[q];
    var info := s.info[a := s.info[a].(randomPos := q)];
    MoveOne(s.info, a, q);
    MovedHas(s.info, info, b);
    MoveOne(info, b, p);
    MovedTwice(s.info, info, info[b := info[b].(randomPos := p)]);
  }

  lemma SwapPositions(info: map<Id, Info>, random: seq<Id>, c: map<Id, Info>, p: nat, q: nat)
    requires RandomOk(info, random) && p < |random| && q < |random| && p != q && c.Keys == info.Keys
    requires random[p] in info && random[q] in info && c[random[p]].randomPos == q && c[random[q]].randomPos == p
    requires forall j | j in info && j != random[p] && j != random[q] :: c[j].randomPos == info[j].randomPos
    ensures RandomOk(c, random[p := random[q]][q := random[p]])
  {
    var r := random[p := random[q]][q := random[p]];
    forall j | j in c ensures 0 <= c[j].randomPos < |r| && r[c[j].randomPos] == j
    {
      assert random[info[j].randomPos] == j;
    }
    forall k | 0 <= k < |r| ensures r[k] in c && c[r[k]].randomPos == k
    {
      assert info[random[k]].randomPos == k;
    }
  }

  lemma SwapRandomOk(s: Tables, p: nat, q: nat)
    requires RandomOk(s.info, s.random) && p < |s.random| && q < |s.random|
    ensures CanSwap(s, p, q)
    ensures var t := Swapped(s, p, q); RandomOk(t.info, t.random) && Moved(s.info, t.info) && |t.random| == |s.random|
    ensures var a := s.random[p]; a in Swapped(s, p, q).info && Swapped(s, p, q).info[a].randomPos == q
  {
    SwappablePositions(s, p, q);
    hide RandomOk, Moved;
    SwapMoves(s, p, q);
    if p != q { SwapPositions(s.info, s.random, Swapped(s, p, q).info, p, q); }
  }

  lemma SwappablePositions(s: Tables, p: nat, q: nat)
    requires RandomOk(s.info, s.random) && p < |s.random| && q < |s.random|
    ensures CanSwap(s, p, q) && s.info[s.random[p]].randomPos == p && (p != q ==> s.random[p] != s.random[q])
  {}

  lemma MovedAddr(a: map<Id, Info>, b: map<Id, Info>, addr: map<Net, Id>)
    requires Moved(a, b) && AddrOk(a, addr)
    ensures AddrOk(b, addr)
  {}

  lemma MovedNew(a: map<Id, Info>, b: map<Id, Info>, news: seq<set<Id>>, x: int)
    requires Moved(a, b) && NewOk(a, news, x)
    ensures NewOk(b, news, x)
  {
    hide Holders;
  }

  lemma MovedTried(env: Env, a: map<Id, Info>, b: map<Id, Info>, tried: seq<seq<Id>>)
    requires Moved(a, b) && TriedOk(env, a, tried)
    ensures TriedOk(env, b, tried)
  {
    forall id | id in a ensures TriedBucket(env, b[id]) == TriedBucket(env, a[id]) {}
    hide Distinct, TriedBucket;
  }

  lemma MovedCounts(a: map<Id, Info>, b: map<Id, Info>, nNew: int, nTried: int, idCount: nat)
    requires Moved(a, b) && CountsOk(a, nNew, nTried, idCount)
    ensures CountsOk(b, nNew, nTried, idCount)
  {
    assert NewIds(a) == NewIds(b);
    assert TriedIds(a) == TriedIds(b);
  }

  lemma SwapInv(env: Env, s: Tables, p: nat, q: nat, x: int)
    requires Inv(env, s, x) && p < |s.random| && q < |s.random|
    ensures CanSwap(s, p, q) && Inv(env, Swapped(s, p, q), x) && Moved(s.info, Swapped(s, p, q).info)
  {
    hide RandomOk, AddrOk, NewOk, TriedOk, CountsOk, Moved;
    SwapRandomOk(s, p, q);
    var t := Swapped(s, p, q);
    MovedAddr(s.info, t.info, s.addr);
    MovedNew(s.info, t.info, s.news, x);
    MovedTried(env, s.info, t.info, s.tried);
    MovedCounts(s.info, t.info, s.nNew, s.nTried, s.idCount);
  }

  // ---- dropping a reference ----

  lemma DropOneNew(info: map<Id, Info>, news: seq<set<Id>>, x: int, b: nat, id: Id)
    requires NewOk(info, news, x) && b < |news| && id in news[b] && info[id].refCount != 1
    ensures NewOk(info[id := info[id].(refCount := info[id].refCount - 1)], news[b := news[b] - {id}], x)
  {
    var r := news[b := news[b] - {id}];
    forall j: Id
      ensures Holders(r, j) == if j == id then Holders(news, j) - {b} else Holders(news, j)
    {
      HoldersRemove(news, b, id, j);
    }
    assert b in Holders(news, id);
    hide Holders;
  }

  /** `b` is `a` without entry `id`, up to positions in the random vector. */
  ghost predicate Lacks(a: map<Id, Info>, b: map<Id, Info>, id: Id)
  {
    b.Keys == a.Keys - {id} && forall j | j in b :: b[j] == a[j].(randomPos := b[j].randomPos)
  }

  lemma SingleHolder(info: map<Id, Info>, news: seq<set<Id>>, x: int, b: nat, id: Id)
    requires NewOk(info, news, x) && b < |news| && id in news[b] && info[id].refCount == 1 && id != x
    ensures Holders(news, id) == {b}
  {
    var h := Holders(news, id);
    assert b in h && |h - {b}| == 0;
  }

  lemma RemoveLast(news: seq<set<Id>>, b: nat, id: Id)
    requires b < |news| && Holders(news, id) == {b}
    ensures var r := news[b := news[b] - {id}];
            && (forall d, j | 0 <= d < |r| && j in r[d] :: j in news[d] && j != id)
            && (forall j | j != id :: Holders(r, j) == Holders(news, j))
            && (forall d | 0 <= d < |r| :: |r[d]| <= |news[d]|)
  {
    var r := news[b := news[b] - {id}];
    forall d, j | 0 <= d < |r| && j in r[d] ensures j in news[d] && j != id
    {
      assert j == id ==> d in Holders(news, id);
    }
    forall j | j != id ensures Holders(r, j) == Holders(news, j) { HoldersRemove(news, b, id, j); }
  }

  lemma EraseNew(a: map<Id, Info>, c: map<Id, Info>, news: seq<set<Id>>, x: int, b: nat, id: Id)
    requires NewOk(a, news, x) && b < |news| && id in news[b] && a[id].refCount == 1 && id != x && Lacks(a, c, id)
    ensures NewOk(c, news[b := news[b] - {id}], x)
  {
    SingleHolder(a, news, x, b, id);
    RemoveLast(news, b, id);
    hide Holders;
  }

  lemma EraseAddr(a: map<Id, Info>, c: map<Id, Info>, addr: map<Net, Id>, id: Id)
    requires AddrOk(a, addr) && id in a && Lacks(a, c, id)
    ensures AddrOk(c, addr - {a[id].addr.net})
  {}

  lemma EraseTried(env: Env, a: map<Id, Info>, c: map<Id, Info>, tried: seq<seq<Id>>, id: Id)
    requires TriedOk(env, a, tried) && id in a && !a[id].inTried && Lacks(a, c, id)
    ensures TriedOk(env, c, tried)
  {
    forall j | j in c ensures TriedBucket(env, c[j]) == TriedBucket(env, a[j]) {}
    hide Distinct, TriedBucket;
  }

  lemma EraseCounts(a: map<Id, Info>, c: map<Id, Info>, nNew: int, nTried: int, idCount: nat, id: Id)
    requires CountsOk(a, nNew, nTried, idCount) && id in a && !a[id].inTried && Lacks(a, c, id)
    ensures CountsOk(c, nNew - 1, nTried, idCount)
  {
    assert NewIds(c) == NewIds(a) - {id};
    assert TriedIds(c) == TriedIds(a);
  }

  lemma PopRandom(info: map<Id, Info>, random: seq<Id>, id: Id)
    requires RandomOk(info, random) && id in info && info[id].randomPos == |random| - 1
    ensures RandomOk(info - {id}, random[..|random| - 1])
  {
    var r := random[..|random| - 1];
    forall p | 0 <= p < |r| ensures r[p] in info && r[p] != id && info[r[p]].randomPos == p
    {
      assert r[p] == random[p];
    }
    forall j | j in info && j != id ensures 0 <= info[j].randomPos < |r| && r[info[j].randomPos] == j
    {
      assert random[info[j].randomPos] == j;
    }
  }

  lemma MovedLacks(a: map<Id, Info>, b: map<Id, Info>, id: Id)
    requires Moved(a, b)
    ensures Lacks(a, b - {id}, id)
  {}

  lemma StoredPosition(info: map<Id, Info>, random: seq<Id>, id: Id)
    requires RandomOk(info, random) && id in info
    ensures 0 <= info[id].randomPos < |random| && random[info[id].randomPos] == id
  {}

  /** Swapping an entry to the end and popping it keeps the random vector right. */
  lemma EraseRandom(s: Tables, id: Id)
    requires RandomOk(s.info, s.random) && id in s.info
    ensures 0 <= s.info[id].randomPos && |s.random| > 0 && CanSwap(s, s.info[id].randomPos, |s.random| - 1)
    ensures var t := Erased(s, id); RandomOk(t.info, t.random) && Lacks(s.info, t.info, id)
  {
    hide RandomOk, Moved, Lacks, Swapped, CanSwap;
    StoredPosition(s.info, s.random, id);
    var n := |s.random| - 1;
    SwapRandomOk(s, s.info[id].randomPos, n);
    var t := Swapped(s, s.info[id].randomPos, n);
    PopRandom(t.info, t.random, id);
    MovedLacks(s.info, t.info, id);
  }

  lemma TouchLacks(a: map<Id, Info>, id: Id, i: Info, c: map<Id, Info>)
    requires id in a && Lacks(a[id := i], c, id)
    ensures Lacks(a, c, id)
  {}

  lemma DropLast(env: Env, s: Tables, b: nat, id: Id, x: int)
    requires Inv(env, s, x) && b < |s.news| && id in s.news[b] && id != x && id in s.info
    requires !s.info[id].inTried && s.info[id].refCount == 1
    ensures CanDrop(s, b, id) && Inv(env, Dropped(s, b, id), x) && OthersKept(s.info, Dropped(s, b, id).info, id)
    ensures Dropped(s, b, id).news == s.news[b := s.news[b] - {id}]
  {
    hide RandomOk, AddrOk, NewOk, TriedOk, CountsOk, Lacks, Erased, CanSwap;
    var j := s.info[id].(refCount := 0);
    var t := SetInfo(s, id, j);
    TouchRandomAddr(s, id, j);
    EraseRandom(s, id);
    EraseRandom(t, id);
    ErasedRest(t, id);
    var c := Erased(t, id).info;
    TouchLacks(s.info, id, j, c);
    LacksKeeps(s.info, c, id);
    EraseNew(s.info, c, s.news, x, b, id);
    EraseAddr(s.info, c, s.addr, id);
    EraseTried(env, s.info, c, s.tried, id);
    EraseCounts(s.info, c, s.nNew, s.nTried, s.idCount, id);
  }

  lemma DropOne(env: Env, s: Tables, b: nat, id: Id, x: int)
    requires Inv(env, s, x) && b < |s.news| && id in s.news[b] && id != x && id in s.info
    requires !s.info[id].inTried && s.info[id].refCount != 1
    ensures CanDrop(s, b, id) && Inv(env, Dropped(s, b, id), x) && OthersKept(s.info, Dropped(s, b, id).info, id)
    ensures Dropped(s, b, id).news == s.news[b := s.news[b] - {id}]
  {
    hide RandomOk, AddrOk, NewOk, TriedOk, CountsOk, Erased, CanSwap;
    var j := s.info[id].(refCount := s.info[id].refCount - 1);
    TouchRandomAddr(s, id, j);
    DropOneNew(s.info, s.news, x, b, id);
    TouchTried(env, s, id, j);
    TouchCounts(s, id, j);
  }

  /** Evicting any listed entry keeps the invariant, even while entry `x` is counted but not yet listed. */
  lemma DropInv(env: Env, s: Tables, b: nat, id: Id, x: int)
    requires Inv(env, s, x) && b < |s.news| && id in s.news[b] && id != x
    ensures CanDrop(s, b, id) && Inv(env, Dropped(s, b, id), x)
    ensures var t := Dropped(s, b, id); t.news == s.news[b := s.news[b] - {id}]
    ensures OthersKept(s.info, Dropped(s, b, id).info, id)
  {
    assert NewOk(s.info, s.news, x);
    ListedFacts(s.info, s.news, x, b, id);
    hide Inv, Dropped, CanDrop, OthersKept;
    if s.info[id].refCount == 1 {
      DropLast(env, s, b, id, x);
    } else {
      DropOne(env, s, b, id, x);
    }
  }

  /** Every other entry survives, unchanged but for its position in the random vector. */
  ghost predicate OthersKept(a: map<Id, Info>, b: map<Id, Info>, id: Id)
  {
    forall j | j in a && j != id :: j in b && b[j] == a[j].(randomPos := b[j].randomPos)
  }

  lemma LacksKeeps(a: map<Id, Info>, b: map<Id, Info>, id: Id)
    requires Lacks(a, b, id)
    ensures OthersKept(a, b, id)
  {}

  lemma ListedFacts(info: map<Id, Info>, news: seq<set<Id>>, x: int, b: nat, id: Id)
    requires NewOk(info, news, x) && b < |news| && id in news[b]
    ensures id in info && !info[id].inTried && info[id].refCount >= 1
  {}

  lemma ErasedRest(s: Tables, id: Id)
    requires id in s.info && 0 <= s.info[id].randomPos && |s.random| > 0 && CanSwap(s, s.info[id].randomPos, |s.random| - 1)
    ensures var t := Erased(s, id);
            && t.news == s.news && t.tried == s.tried && t.nTried == s.nTried && t.idCount == s.idCount
            && t.nNew == s.nNew - 1 && t.addr == s.addr - {s.info[id].addr.net}
  {}

  // ---- moving an entry to the tried table ----

  lemma UnlistCounts(a: map<Id, Info>, nNew: int, nTried: int, idCount: nat, id: Id, c: map<Id, Info>)
    requires CountsOk(a, nNew, nTried, idCount) && id in a && !a[id].inTried
    requires c.Keys == a.Keys && c[id].inTried && forall j | j in a && j != id :: c[j].inTried == a[j].inTried
    ensures CountsOk(c, nNew - 1, nTried + 1, idCount)
  {
    assert NewIds(c) == NewIds(a) - {id};
    assert TriedIds(c) == TriedIds(a) + {id};
  }

  lemma PromoteNew(info: map<Id, Info>, news: seq<set<Id>>, id: Id, i: Info)
    requires NewOk(info, news, NOBODY) && id in info && i.inTried
    ensures NewOk(info[id := i], Without(news, id), NOBODY)
  {
    var r := Without(news, id);
    forall j: Id ensures Holders(r, j) == if j == id then {} else Holders(news, j) { HoldersWithout(news, id, j); }
    forall b | 0 <= b < |r| ensures |r[b]| <= NEW_SIZE
    {
      assert r[b] <= news[b];
      SubsetSize(r[b], news[b]);
    }
    hide Holders;
  }

  lemma SubsetSize(a: set<Id>, b: set<Id>)
    requires a <= b
    ensures |a| <= |b|
  {
    assert b == a + (b - a);
  }

  lemma PromoteTried(env: Env, info: map<Id, Info>, tried: seq<seq<Id>>, id: Id, i: Info)
    requires TriedOk(env, info, tried) && id in info && !info[id].inTried
    requires i.inTried && i.refCount == 0
    requires var k := TriedBucket(env, i); |tried[k]| < TRIED_SIZE
    ensures var k := TriedBucket(env, i); TriedOk(env, info[id := i], tried[k := tried[k] + [id]])
  {
    var k := TriedBucket(env, i);
    hide TriedBucket;
    var t := tried[k := tried[k] + [id]];
    assert id !in tried[k];
    assert forall b, j | 0 <= b < |t| && j in t[b] :: j in tried[b] || (b == k && j == id);
  }

  lemma PromotedForm(s: Tables, k: nat, id: Id)
    requires id in s.info && k < |s.tried|
    ensures var i := s.info[id].(refCount := 0, inTried := true);
            Promoted(Unlisted(s, id), k, id) ==
              s.(info := s.info[id := i], news := Without(s.news, id), nNew := s.nNew - 1,
                 tried := s.tried[k := s.tried[k] + [id]], nTried := s.nTried + 1)
  {
    hide Without;
    var i := s.info[id].(refCount := 0, inTried := true);
    assert s.info[id := s.info[id].(refCount := 0)][id := i] == s.info[id := i];
  }

  /** `MakeTried` with room in the bucket. */
  lemma PromoteInv(env: Env, s: Tables, id: Id)
    requires Inv(env, s, NOBODY) && id in s.info && !s.info[id].inTried
    requires var k := TriedBucket(env, s.info[id]); |s.tried[k]| < TRIED_SIZE
    ensures Inv(env, Promoted(Unlisted(s, id), TriedBucket(env, s.info[id]), id), NOBODY)
  {
    hide RandomOk, AddrOk, NewOk, TriedOk, CountsOk, TriedBucket, Without, Promoted, Unlisted;
    var i := s.info[id].(refCount := 0, inTried := true);
    var k := TriedBucket(env, s.info[id]);
    SameBucket(env, s.info[id], i);
    TriedCount(env, s.info, s.tried);
    PromotedForm(s, k, id);
    PromoteNew(s.info, s.news, id, i);
    PromoteTried(env, s.info, s.tried, id, i);
    UnlistCounts(s.info, s.nNew, s.nTried, s.idCount, id, s.info[id := i]);
    PlaceRandomAddr(s, id, i);
  }

  lemma PlaceRandomAddr(s: Tables, id: Id, i: Info)
    requires id in s.info && i.addr == s.info[id].addr && i.randomPos == s.info[id].randomPos
    requires RandomOk(s.info, s.random) && AddrOk(s.info, s.addr)
    ensures RandomOk(s.info[id := i], s.random) && AddrOk(s.info[id := i], s.addr)
  {}

  // ---- replacing a tried entry, which goes back to a new bucket ----

  lemma TriedNotListed(info: map<Id, Info>, news: seq<set<Id>>, out: Id)
    requires NewOk(info, news, NOBODY) && out in info && info[out].inTried
    ensures Holders(news, out) == {}
  {}

  lemma DemoteNew(info: map<Id, Info>, news: seq<set<Id>>, out: Id, o: Info, u: nat)
    requires NewOk(info, news, NOBODY) && out in info && info[out].inTried
    requires !o.inTried && o.refCount == 1 && u < |news| && |news[u]| < NEW_SIZE
    ensures NewOk(info[out := o], news[u := news[u] + {out}], NOBODY)
  {
    TriedNotListed(info, news, out);
    var r := news[u := news[u] + {out}];
    forall j: Id ensures Holders(r, j) == if j == out then {u} else Holders(news, j)
    {
      HoldersInsert(news, u, out, j);
    }
    assert |{u}| == 1;
    hide Holders;
  }

  lemma ReplaceTried(env: Env, info: map<Id, Info>, tried: seq<seq<Id>>, k: nat, pos: nat, c: map<Id, Info>, id: Id)
    requires TriedOk(env, info, tried) && k < |tried| && pos < |tried[k]| && id in info && !info[id].inTried
    requires c.Keys == info.Keys && c[id].inTried && c[id].refCount == 0 && TriedBucket(env, c[id]) == k
    requires var out := tried[k][pos]; out in info && !c[out].inTried
    requires forall j | j in info && j != id && j != tried[k][pos] :: c[j] == info[j]
    ensures var bucket: seq<Id> := tried[k][pos := id]; TriedOk(env, c, tried[k := bucket])
  {
    hide TriedBucket, Distinct;
    var bucket: seq<Id> := tried[k][pos := id];
    var t := tried[k := bucket];
    var out := tried[k][pos];
    assert id !in tried[k];
    ReplacedBucket(tried[k], pos, id);
    forall b, j | 0 <= b < |t| ensures j in t[b] <==> (b == k && j == id) || (j in tried[b] && j != out)
    {
      if b != k { OnlyBucket(env, info, tried, k, b, out); }
    }
    forall b | 0 <= b < |t| ensures |t[b]| <= TRIED_SIZE && Distinct(t[b]) {}
    ReplacedHomes(env, info, tried, k, out, id, c, t);
  }

  lemma OnlyBucket(env: Env, info: map<Id, Info>, tried: seq<seq<Id>>, k: nat, b: nat, j: Id)
    requires TriedOk(env, info, tried) && k < |tried| && b < |tried| && b != k && j in tried[k]
    ensures j !in tried[b]
  {
    hide TriedBucket, Distinct;
    var i := info[j];
    assert TriedBucket(env, i) == k;
    assert j in tried[b] ==> TriedBucket(env, i) == b;
  }

  /** Everybody is at home after `id` took the place of `out`. */
  lemma ReplacedHomes(env: Env, info: map<Id, Info>, tried: seq<seq<Id>>, k: nat, out: Id, id: Id, c: map<Id, Info>, t: seq<seq<Id>>)
    requires TriedOk(env, info, tried) && k < |tried| && id in info && !info[id].inTried && out in info
    requires c.Keys == info.Keys && c[id].inTried && c[id].refCount == 0 && TriedBucket(env, c[id]) == k && !c[out].inTried
    requires forall j | j in info && j != id && j != out :: c[j] == info[j]
    requires |t| == |tried| && forall b, j | 0 <= b < |t| :: j in t[b] <==> (b == k && j == id) || (j in tried[b] && j != out)
    ensures forall b, j | 0 <= b < |t| && j in t[b] :: j in c && c[j].inTried && TriedBucket(env, c[j]) == b
    ensures forall j | j in c && c[j].inTried :: c[j].refCount == 0 && j in t[TriedBucket(env, c[j])]
  {
    hide TriedBucket, Distinct;
  }

  /** A bucket with one place overwritten. */
  lemma ReplacedBucket(v: seq<Id>, pos: nat, id: Id)
    requires pos < |v| && Distinct(v) && id !in v
    ensures Distinct(v[pos := id])
    ensures forall j :: j in v[pos := id] <==> j == id || (j in v && j != v[pos])
  {
    var w: seq<Id> := v[pos := id];
    assert w[pos] == id;
    forall j | j in v && j != v[pos] ensures j in w
    {
      InBucketStill(v, pos, id, j);
    }
  }

  lemma InBucketStill(v: seq<Id>, pos: nat, id: Id, j: Id)
    requires pos < |v| && j in v && j != v[pos]
    ensures j in v[pos := id]
  {
    var q :| 0 <= q < |v| && v[q] == j;
    assert v[pos := id][q] == j;
  }

  lemma ReplaceCounts(a: map<Id, Info>, nNew: int, nTried: int, idCount: nat, id: Id, out: Id, c: map<Id, Info>)
    requires CountsOk(a, nNew, nTried, idCount) && id in a && !a[id].inTried && out in a && a[out].inTried
    requires c.Keys == a.Keys && c[id].inTried && !c[out].inTried
    requires forall j | j in a && j != id && j != out :: c[j].inTried == a[j].inTried
    ensures CountsOk(c, nNew, nTried, idCount)
  {
    assert NewIds(c) == NewIds(a) - {id} + {out};
    assert TriedIds(c) == TriedIds(a) - {out} + {id};
    ExchangeSize(NewIds(a), id, out);
    ExchangeSize(TriedIds(a), out, id);
    hide NewIds, TriedIds;
  }

  lemma ExchangeSize(s: set<Id>, x: Id, y: Id)
    requires x in s && y !in s
    ensures |s - {x} + {y}| == |s|
  {}

  lemma TriedFacts(env: Env, info: map<Id, Info>, tried: seq<seq<Id>>, k: nat, pos: nat)
    requires TriedOk(env, info, tried) && k < |tried| && pos < |tried[k]|
    ensures tried[k][pos] in info && info[tried[k][pos]].inTried
  {}

  lemma ReplacedForm(s: Tables, k: nat, pos: nat, id: Id, u: nat)
    requires id in s.info && k < |s.tried| && pos < |s.tried[k]| && s.tried[k][pos] in s.info && u < |s.news|
    requires s.tried[k][pos] != id
    ensures var out := s.tried[k][pos];
            var i := s.info[id].(refCount := 0, inTried := true);
            var o := s.info[out].(inTried := false, refCount := 1);
            var bucket: seq<Id> := s.tried[k][pos := id];
            var news := Without(s.news, id);
            Replaced(Unlisted(s, id), k, pos, id, u) ==
              s.(info := s.info[id := i][out := o], news := news[u := news[u] + {out}], tried := s.tried[k := bucket])
  {
    hide Without;
    var out := s.tried[k][pos];
    var i := s.info[id].(refCount := 0, inTried := true);
    var o := s.info[out].(inTried := false, refCount := 1);
    assert s.info[id := s.info[id].(refCount := 0)][out := o][id := i] == s.info[id := i][out := o];
  }

  /** The parts of the tables after a replacement: the new buckets ... */
  lemma ReplaceNew(s: Tables, id: Id, i: Info, out: Id, o: Info, u: nat)
    requires NewOk(s.info, s.news, NOBODY) && id in s.info && i.inTried && out in s.info && s.info[out].inTried && id != out
    requires !o.inTried && o.refCount == 1 && u < |s.news| && |s.news[u] - {id}| < NEW_SIZE
    ensures var news := Without(s.news, id); NewOk(s.info[id := i][out := o], news[u := news[u] + {out}], NOBODY)
  {
    hide NewOk;
    PromoteNew(s.info, s.news, id, i);
    DemoteNew(s.info[id := i], Without(s.news, id), out, o, u);
  }

  /** ... and the tried buckets and the counts. */
  lemma ReplaceRest(env: Env, s: Tables, k: nat, pos: nat, id: Id, i: Info, o: Info)
    requires TriedOk(env, s.info, s.tried) && CountsOk(s.info, s.nNew, s.nTried, s.idCount) && k < |s.tried| && pos < |s.tried[k]|
    requires id in s.info && !s.info[id].inTried && i.inTried && i.refCount == 0 && TriedBucket(env, i) == k && !o.inTried
    requires var out := s.tried[k][pos]; out in s.info && s.info[out].inTried && out != id
    ensures var out, bucket: seq<Id> := s.tried[k][pos], s.tried[k][pos := id];
            && TriedOk(env, s.info[id := i][out := o], s.tried[k := bucket])
            && CountsOk(s.info[id := i][out := o], s.nNew, s.nTried, s.idCount)
  {
    hide TriedOk, CountsOk, TriedBucket;
    var out := s.tried[k][pos];
    var c := s.info[id := i][out := o];
    ReplaceTried(env, s.info, s.tried, k, pos, c, id);
    ReplaceCounts(s.info, s.nNew, s.nTried, s.idCount, id, out, c);
  }

  /** `MakeTried` with a full tried bucket: the replaced entry finds room in new bucket `u`. */
  lemma ReplaceInv(env: Env, s: Tables, pos: nat, id: Id, u: nat)
    requires Inv(env, s, NOBODY) && id in s.info && !s.info[id].inTried
    requires var k := TriedBucket(env, s.info[id]); pos < |s.tried[k]|
    requires u < |s.news| && |s.news[u] - {id}| < NEW_SIZE
    ensures var k := TriedBucket(env, s.info[id]);
            s.tried[k][pos] in s.info && Inv(env, Replaced(Unlisted(s, id), k, pos, id, u), NOBODY)
  {
    hide RandomOk, AddrOk, NewOk, TriedOk, CountsOk, TriedBucket, Without, Replaced, Unlisted;
    var i := s.info[id].(refCount := 0, inTried := true);
    var k := TriedBucket(env, s.info[id]);
    SameBucket(env, s.info[id], i);
    TriedCount(env, s.info, s.tried);
    TriedFacts(env, s.info, s.tried, k, pos);
    var out := s.tried[k][pos];
    var o := s.info[out].(inTried := false, refCount := 1);
    ReplacedForm(s, k, pos, id, u);
    ReplaceNew(s, id, i, out, o, u);
    ReplaceRest(env, s, k, pos, id, i, o);
    PlaceTwice(s, id, i, out, o);
  }

  lemma TriedCount(env: Env, info: map<Id, Info>, tried: seq<seq<Id>>)
    requires TriedOk(env, info, tried)
    ensures |tried| == TRIED_BUCKETS
  {}

  lemma SameBucket(env: Env, a: Info, b: Info)
    requires a.addr == b.addr
    ensures TriedBucket(env, a) == TriedBucket(env, b)
  {}

  lemma PlaceTwice(s: Tables, id: Id, i: Info, out: Id, o: Info)
    requires id in s.info && i.addr == s.info[id].addr && i.randomPos == s.info[id].randomPos && id != out
    requires out in s.info && o.addr == s.info[out].addr && o.randomPos == s.info[out].randomPos
    requires RandomOk(s.info, s.random) && AddrOk(s.info, s.addr)
    ensures RandomOk(s.info[id := i][out := o], s.random) && AddrOk(s.info[id := i][out := o], s.addr)
  {
    hide RandomOk, AddrOk;
    PlaceRandomAddr(s, id, i);
    PlaceRandomAddr(s.(info := s.info[id := i]), out, o);
  }

  // ---- shuffling a tried bucket ----

  lemma ShuffleTried(env: Env, info: map<Id, Info>, tried: seq<seq<Id>>, k: nat, v: seq<Id>)
    requires TriedOk(env, info, tried) && k < |tried| && |v| == |tried[k]| && Distinct(v)
    requires forall j :: j in v <==> j in tried[k]
    ensures TriedOk(env, info, tried[k := v])
  {
    hide TriedBucket, Distinct;
  }

  lemma SwapDistinct(v: seq<Id>, p: nat, q: nat)
    requires Distinct(v) && p < |v| && q < |v|
    ensures var w := v[p := v[q]][q := v[p]]; Distinct(w) && forall j :: j in w <==> j in v
  {
    var w := v[p := v[q]][q := v[p]];
    forall j | j in v ensures j in w
    {
      var r :| 0 <= r < |v| && v[r] == j;
      assert w[if r == p then q else if r == q then p else r] == j;
    }
  }
}
