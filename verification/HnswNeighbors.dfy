/** selectNeighborsHeuristic of neighbors.go. */
module HnswNeighbors {
  import opened Sets
  import opened Heaps
  import opened HnswGraph
  import opened HnswIndex

  /** The order in which candidates were examined, and those brought back at the end. */
  datatype Selection = Selection(popped: Trail<Item>, fill: seq<Item>)

  ghost predicate HasId(pool: set<Item>, id: NodeId) {
    exists x :: x in pool && x.id == id
  }

  /** The pool with one more candidate, unless its ID is taken. */
  ghost function Joined(pool: set<Item>, c: Item): set<Item> {
    if HasId(pool, c.id) then pool else pool + {c}
  }

  lemma JoinedIds(pool: set<Item>, c: Item)
    ensures forall id :: HasId(Joined(pool, c), id) <==> HasId(pool, id) || id == c.id
  {
    var pool' := Joined(pool, c);
    assert c in pool' || HasId(pool, c.id);
    forall id ensures HasId(pool', id) <==> HasId(pool, id) || id == c.id {
      if HasId(pool, id) {
        var x :| x in pool && x.id == id;
        assert x in pool';
      }
    }
  }

  /** The first n candidates, keeping the first entry of each ID. */
  ghost function Pool(cs: seq<Item>, n: nat): set<Item>
    requires n <= |cs|
  {
    if n == 0 then {} else Joined(Pool(cs, n - 1), cs[n - 1])
  }

  ghost function PoolOf(cs: seq<Item>): set<Item> {
    Pool(cs, |cs|)
  }

  function Vec(v: View, id: NodeId): Vector {
    if 0 <= id < |v.graph| then v.graph[id].vector else []
  }

  ghost predicate Exists(v: View, e: Item) {
    0 <= e.id < |v.graph|
  }

  /** e is at least as far from every item of `kept` as from the query. */
  ghost predicate Useful(v: View, kept: seq<Item>, e: Item) {
    forall r :: r in kept ==> e.dist <= v.metric(Vec(v, e.id), Vec(v, r.id))
  }

  ghost function Kept(v: View, t: Trail<Item>): seq<Item> {
    if t.Start? then []
    else if Exists(v, t.last) && Useful(v, Kept(v, t.before), t.last) then Kept(v, t.before) + [t.last]
    else Kept(v, t.before)
  }

  ghost function Discarded(v: View, t: Trail<Item>): seq<Item> {
    if t.Start? then []
    else if Exists(v, t.last) && !Useful(v, Kept(v, t.before), t.last) then Discarded(v, t.before) + [t.last]
    else Discarded(v, t.before)
  }

  ghost predicate Leading(e: Item, among: set<Item>) {
    e in among && forall x :: x in among ==> e.dist <= x.dist
  }

  /** Candidates are examined nearest first, for as long as fewer than M have been kept. */
  ghost predicate NearestFirst(v: View, pool: set<Item>, M: nat, t: Trail<Item>) {
    t.Then? ==>
      && NearestFirst(v, pool, M, t.before)
      && Leading(t.last, pool - t.before.Nodes())
      && |Kept(v, t.before)| < M
  }

  /** `fill` lists least items of `from`, in ascending order. */
  ghost predicate Lists(fill: seq<Item>, from: set<Item>) {
    && Distinct(fill)
    && (forall k :: 0 <= k < |fill| ==> fill[k] in from)
    && (forall j, k :: 0 <= j < k < |fill| ==> fill[j].dist <= fill[k].dist)
    && (forall k, x :: 0 <= k < |fill| && x in from && x !in fill ==> fill[k].dist <= x.dist)
  }

  /** The n least items of `from`, or all of them. */
  ghost predicate Refills(fill: seq<Item>, from: set<Item>, n: int) {
    Lists(fill, from) && |fill| == Min(Max(n, 0), |from|)
  }

  /** Algorithm 4 on the candidates in `pool`. */
  ghost predicate Selects(v: View, pool: set<Item>, M: nat, keepPruned: bool, sel: Selection) {
    && NearestFirst(v, pool, M, sel.popped)
    && (|Kept(v, sel.popped)| >= M || sel.popped.Nodes() >= pool)
    && if keepPruned
       then Refills(sel.fill, ToSet(Discarded(v, sel.popped)), M - |Kept(v, sel.popped)|)
       else sel.fill == []
  }

  ghost function Chosen(v: View, sel: Selection): seq<Item> {
    Kept(v, sel.popped) + sel.fill
  }

  // ---------- what a selection is good for ----------

  ghost predicate OneEach(pool: set<Item>) {
    forall x, y :: x in pool && y in pool && x.id == y.id ==> x == y
  }

  lemma {:induction false} PoolHasOneEach(cs: seq<Item>, n: nat)
    requires n <= |cs|
    ensures OneEach(Pool(cs, n))
    ensures forall k :: 0 <= k < n ==> HasId(Pool(cs, n), cs[k].id)
    ensures forall x :: x in Pool(cs, n) ==> x in cs
  {
    if n > 0 {
      PoolHasOneEach(cs, n - 1);
      JoinedIds(Pool(cs, n - 1), cs[n - 1]);
    }
  }

  lemma {:induction false} ExaminedInPool(v: View, pool: set<Item>, M: nat, t: Trail<Item>)
    requires NearestFirst(v, pool, M, t)
    ensures t.Nodes() <= pool
  {
    if t.Then? {
      ExaminedInPool(v, pool, M, t.before);
    }
  }

  /** Examined candidates come in ascending order of distance. */
  lemma {:induction false} ExaminedAscending(v: View, pool: set<Item>, M: nat, t: Trail<Item>, x: Item)
    requires NearestFirst(v, pool, M, t) && t.Then? && x in t.before.Nodes()
    ensures x.dist <= t.last.dist
  {
    assert t.before.Then?;
    ExaminedInPool(v, pool, M, t);
    if x == t.before.last {
      assert t.last in pool - t.before.before.Nodes();
    } else {
      ExaminedAscending(v, pool, M, t.before, x);
      assert t.last in pool - t.before.before.Nodes();
    }
  }

  /** Every examined candidate in range is kept or discarded, never both, and once. */
  lemma {:induction false} KeptOrDiscarded(v: View, pool: set<Item>, M: nat, t: Trail<Item>)
    requires NearestFirst(v, pool, M, t)
    ensures Distinct(Kept(v, t)) && Distinct(Discarded(v, t))
    ensures forall x :: x in t.Nodes() && Exists(v, x) <==> x in Kept(v, t) || x in Discarded(v, t)
    ensures forall x :: x in Kept(v, t) ==> x !in Discarded(v, t)
  {
    if t.Then? {
      KeptOrDiscarded(v, pool, M, t.before);
      assert t.last !in t.before.Nodes();
      assert t.last !in Kept(v, t.before) && t.last !in Discarded(v, t.before);
    }
  }

  /** The kept prefix ascends in distance and is pairwise diverse: no member is closer
      to an earlier one than to the query. */
  lemma {:induction false} KeptIsDiverse(v: View, pool: set<Item>, M: nat, t: Trail<Item>, i: nat, j: nat)
    requires NearestFirst(v, pool, M, t) && i < j < |Kept(v, t)|
    ensures var ks := Kept(v, t);
      ks[i].dist <= ks[j].dist && ks[j].dist <= v.metric(Vec(v, ks[j].id), Vec(v, ks[i].id))
  {
    var ks, before := Kept(v, t), Kept(v, t.before);
    if j < |before| {
      assert ks[i] == before[i] && ks[j] == before[j];
      KeptIsDiverse(v, pool, M, t.before, i, j);
    } else {
      assert ks == before + [t.last];
      assert ks[i] in before;
      KeptOrDiscarded(v, pool, M, t.before);
      ExaminedAscending(v, pool, M, t, ks[i]);
    }
  }

  /** Each discarded candidate is strictly closer to some kept one, itself no further
      from the query, than to the query. */
  lemma {:induction false} DiscardIsJustified(v: View, pool: set<Item>, M: nat, t: Trail<Item>, d: Item)
    requires NearestFirst(v, pool, M, t) && d in Discarded(v, t)
    ensures exists r :: r in Kept(v, t) && r.dist <= d.dist && v.metric(Vec(v, d.id), Vec(v, r.id)) < d.dist
  {
    if d in Discarded(v, t.before) {
      DiscardIsJustified(v, pool, M, t.before, d);
      var r :| r in Kept(v, t.before) && r.dist <= d.dist && v.metric(Vec(v, d.id), Vec(v, r.id)) < d.dist;
      assert r in Kept(v, t);
    } else {
      assert d == t.last && !Useful(v, Kept(v, t.before), d);
      var r :| r in Kept(v, t.before) && v.metric(Vec(v, d.id), Vec(v, r.id)) < d.dist;
      KeptOrDiscarded(v, pool, M, t.before);
      ExaminedAscending(v, pool, M, t, r);
    }
  }

  /** With every candidate in range, the nearest one is kept first. */
  lemma {:induction false} NearestIsKeptFirst(v: View, pool: set<Item>, M: nat, t: Trail<Item>)
    requires NearestFirst(v, pool, M, t) && t.Then? && forall x :: x in pool ==> Exists(v, x)
    ensures Kept(v, t) != [] && Leading(Kept(v, t)[0], pool)
  {
    if t.before.Then? {
      NearestIsKeptFirst(v, pool, M, t.before);
    } else {
      assert pool - t.before.Nodes() == pool;
    }
  }

  lemma {:induction false} DistinctSize<T>(s: seq<T>)
    requires Distinct(s)
    ensures |ToSet(s)| == |s|
  {
    if s != [] {
      var front, last := s[..|s| - 1], s[|s| - 1];
      DistinctSize(front);
      assert ToSet(s) == ToSet(front) + {last};
    }
  }

  ghost function Usable(v: View, pool: set<Item>): set<Item> {
    set x | x in pool && Exists(v, x)
  }

  lemma {:induction false} KeptAtMost(v: View, pool: set<Item>, M: nat, t: Trail<Item>)
    requires NearestFirst(v, pool, M, t)
    ensures |Kept(v, t)| <= M
  {
    if t.Then? {
      KeptAtMost(v, pool, M, t.before);
    }
  }

  /** A selection offers at most M distinct candidates in range. */
  lemma SelectionIsSound(v: View, pool: set<Item>, M: nat, keepPruned: bool, sel: Selection)
    requires OneEach(pool) && Selects(v, pool, M, keepPruned, sel)
    ensures var chosen := Chosen(v, sel);
      && (forall x :: x in chosen ==> x in pool && Exists(v, x))
      && Distinct(Ids(chosen)) && Distinct(chosen)
      && |chosen| <= M
  {
    var t, chosen := sel.popped, Chosen(v, sel);
    ExaminedInPool(v, pool, M, t);
    KeptOrDiscarded(v, pool, M, t);
    KeptAtMost(v, pool, M, t);
    var k := |Kept(v, t)|;
    forall i | 0 <= i < |chosen| ensures chosen[i] in (if i < k then Kept(v, t) else Discarded(v, t)) {
      assert i >= k ==> chosen[i] == sel.fill[i - k];
    }
    forall i, j | 0 <= i < j < |chosen| ensures chosen[i] != chosen[j] {
      assert i >= k ==> chosen[i] == sel.fill[i - k] && chosen[j] == sel.fill[j - k];
    }
  }

  /** With back-filling it offers exactly min(M, usable candidates). */
  lemma SelectionFills(v: View, pool: set<Item>, M: nat, sel: Selection)
    requires OneEach(pool) && Selects(v, pool, M, true, sel)
    ensures |Chosen(v, sel)| == Min(M, |Usable(v, pool)|)
  {
    var t, usable := sel.popped, Usable(v, pool);
    ExaminedInPool(v, pool, M, t);
    KeptOrDiscarded(v, pool, M, t);
    KeptAtMost(v, pool, M, t);
    var ks, ds := ToSet(Kept(v, t)), ToSet(Discarded(v, t));
    DistinctSize(Kept(v, t));
    DistinctSize(Discarded(v, t));
    assert ks !! ds;
    assert |ks + ds| == |ks| + |ds|;
    SubsetSize(ks + ds, usable);
    if |Kept(v, t)| < M {
      assert ks + ds == usable;
    }
  }

  lemma ChosenIds(v: View, candidates: seq<Item>, M: nat, keepPruned: bool, sel: Selection)
    requires Selects(v, PoolOf(candidates), M, keepPruned, sel)
    ensures var ids := Ids(Chosen(v, sel));
      && |ids| <= M && Distinct(ids)
      && (forall id :: id in ids ==> 0 <= id < |v.graph| && exists c :: c in candidates && c.id == id)
      && (keepPruned ==> |ids| == Min(M, |Usable(v, PoolOf(candidates))|))
  {
    PoolHasOneEach(candidates, |candidates|);
    SelectionIsSound(v, PoolOf(candidates), M, keepPruned, sel);
    if keepPruned {
      SelectionFills(v, PoolOf(candidates), M, sel);
    }
    hide Selects;
    forall id | id in Ids(Chosen(v, sel))
      ensures 0 <= id < |v.graph| && exists c :: c in candidates && c.id == id
    {
      var x :| x in Chosen(v, sel) && x.id == id;
    }
  }

  // ---------- the method ----------

  /** The heap holds each item of `s` once and nothing else. */
  ghost predicate Queues(h: Heap<Item>, s: set<Item>)
    reads h
  {
    h.Valid() && h.key == Nearer && |h.items| == |s| && multiset(h.items) == multiset(s)
  }

  lemma QueuedAre(h: Heap<Item>, s: set<Item>)
    requires Queues(h, s)
    ensures forall it :: it in h.items <==> it in s
  {
    forall it ensures it in h.items <==> it in s {
      assert it in h.items <==> it in multiset(h.items);
    }
  }

  lemma OneMore(s: set<Item>, item: Item)
    requires item !in s
    ensures multiset(s + {item}) == multiset(s) + multiset{item}
  {
  }

  lemma OneFewer(s: set<Item>, item: Item)
    requires item in s
    ensures multiset(s - {item}) == multiset(s) - multiset{item}
  {
  }

  method PushItem(h: Heap<Item>, item: Item, ghost s: set<Item>)
    requires Queues(h, s) && item !in s
    modifies h`items
    ensures Queues(h, s + {item})
  {
    OneMore(s, item);
    h.Push(item);
  }

  method PopItem(h: Heap<Item>, ghost s: set<Item>) returns (item: Item)
    requires Queues(h, s) && h.items != []
    modifies h`items
    ensures Queues(h, s - {item}) && Leading(item, s)
  {
    QueuedAre(h, s);
    item := h.Pop();
    OneFewer(s, item);
    forall x | x in s ensures item.dist <= x.dist {
      assert h.key(item) <= h.key(x);
    }
  }

  ghost predicate Marks(seen: set<NodeId>, pool: set<Item>) {
    forall id :: id in seen <==> HasId(pool, id)
  }

  /** Adds a candidate unless its ID was seen before. */
  method AddCandidate(working: Heap<Item>, c: Item, seen0: set<NodeId>, ghost pool: set<Item>)
    returns (seen: set<NodeId>)
    requires Queues(working, pool) && Marks(seen0, pool)
    modifies working`items
    ensures Queues(working, Joined(pool, c)) && Marks(seen, Joined(pool, c))
  {
    seen := seen0 + {c.id};
    if c.id !in seen0 {
      PushItem(working, c, pool);
    }
    JoinedIds(pool, c);
  }

  method QueueCandidates(candidates: seq<Item>) returns (working: Heap<Item>)
    ensures fresh(working) && Queues(working, PoolOf(candidates))
  {
    working := new Heap<Item>(Nearer);
    var seen: set<NodeId> := {};
    for i := 0 to |candidates|
      invariant fresh(working) && Queues(working, Pool(candidates, i)) && Marks(seen, Pool(candidates, i))
    {
      seen := AddCandidate(working, candidates[i], seen, Pool(candidates, i));
    }
  }

  /** The diversity test of one candidate against those selected so far. */
  method IsUseful(idx: Index, query: Vector, e: Item, result: seq<NodeId>, ghost v: View, ghost kept: seq<Item>)
    returns (useful: bool)
    requires Sees(idx, query, v) && Exists(v, e)
    requires result == Ids(kept) && forall r :: r in kept ==> Exists(v, r)
    ensures useful == Useful(v, kept, e)
  {
    var eVec := idx.nodes[e.id].Vector;
    for i := 0 to |result|
      invariant forall k :: 0 <= k < i ==> e.dist <= v.metric(eVec, Vec(v, kept[k].id))
    {
      assert kept[i] in kept;
      if idx.metric(eVec, idx.nodes[result[i]].Vector) < e.dist {
        return false;
      }
    }
    return true;
  }

  lemma Examine(v: View, t: Trail<Item>, e: Item, useful: bool)
    requires useful == (Exists(v, e) && Useful(v, Kept(v, t), e))
    ensures Ids(Kept(v, Then(t, e))) == Ids(Kept(v, t)) + if useful then [e.id] else []
    ensures Discarded(v, Then(t, e)) == Discarded(v, t) + if Exists(v, e) && !useful then [e] else []
  {
    IdsConcat(Kept(v, t), [e]);
  }

  /** One round of the main loop. */
  method ExamineNext(idx: Index, query: Vector, working: Heap<Item>, result0: seq<NodeId>, discarded0: seq<Item>,
                     ghost v: View, ghost pool: set<Item>, M: nat, ghost t0: Trail<Item>)
    returns (result: seq<NodeId>, discarded: seq<Item>, ghost t: Trail<Item>)
    requires Sees(idx, query, v) && working.items != [] && |result0| < M
    requires NearestFirst(v, pool, M, t0) && Queues(working, pool - t0.Nodes())
    requires result0 == Ids(Kept(v, t0)) && discarded0 == Discarded(v, t0)
    modifies working`items
    ensures NearestFirst(v, pool, M, t) && Queues(working, pool - t.Nodes())
    ensures result == Ids(Kept(v, t)) && discarded == Discarded(v, t)
    ensures |working.items| < old(|working.items|)
  {
    result, discarded := result0, discarded0;
    KeptOrDiscarded(v, pool, M, t0);
    var e := PopItem(working, pool - t0.Nodes());
    MinusOneMore(pool, t0.Nodes(), e);
    t := Then(t0, e);
    if 0 <= e.id < |idx.nodes| {
      var useful := IsUseful(idx, query, e, result, v, Kept(v, t0));
      Examine(v, t0, e, useful);
      if useful {
        result := result + [e.id];
      } else {
        discarded := discarded + [e];
      }
    } else {
      Examine(v, t0, e, false);
    }
  }

  /** The main loop: examine candidates nearest first until M are selected. */
  method SelectDiverse(idx: Index, query: Vector, working: Heap<Item>, M: nat, ghost v: View, ghost pool: set<Item>)
    returns (result: seq<NodeId>, discarded: seq<Item>, ghost t: Trail<Item>)
    requires Sees(idx, query, v) && Queues(working, pool)
    modifies working`items
    ensures NearestFirst(v, pool, M, t) && (|Kept(v, t)| >= M || t.Nodes() >= pool)
    ensures result == Ids(Kept(v, t)) && discarded == Discarded(v, t)
  {
    result, discarded, t := [], [], Start;
    assert pool - t.Nodes() == pool;
    while |working.items| > 0 && |result| < M
      invariant NearestFirst(v, pool, M, t) && Queues(working, pool - t.Nodes())
      invariant result == Ids(Kept(v, t)) && discarded == Discarded(v, t)
      decreases |working.items|
    {
      result, discarded, t := ExamineNext(idx, query, working, result, discarded, v, pool, M, t);
    }
  }

  lemma ListsOneMore(fill: seq<Item>, from: set<Item>, e: Item)
    requires Lists(fill, from) && Leading(e, from - ToSet(fill))
    ensures Lists(fill + [e], from)
  {
    assert e !in fill && e in from;
    var fill' := fill + [e];
    forall k, x | 0 <= k < |fill'| && x in from && x !in fill' ensures fill'[k].dist <= x.dist {
      assert x !in fill;
    }
  }

  method QueueAll(items: seq<Item>) returns (h: Heap<Item>)
    requires Distinct(items)
    ensures fresh(h) && Queues(h, ToSet(items))
  {
    h := new Heap<Item>(Nearer);
    for i := 0 to |items|
      invariant fresh(h) && Queues(h, ToSet(items[..i]))
    {
      ToSetPrefixGrows(items, i);
      assert items[i] !in items[..i];
      PushItem(h, items[i], ToSet(items[..i]));
    }
    assert items[..|items|] == items;
  }

  lemma AppendId(start: seq<NodeId>, fill: seq<Item>, e: Item)
    ensures start + Ids(fill + [e]) == start + Ids(fill) + [e.id]
  {
    IdsConcat(fill, [e]);
  }

  method TakeLeast(dh: Heap<Item>, result0: seq<NodeId>, ghost start: seq<NodeId>, ghost fill0: seq<Item>,
                   ghost all: set<Item>)
    returns (result: seq<NodeId>, ghost fill: seq<Item>)
    requires Queues(dh, all - ToSet(fill0)) && dh.items != []
    requires Lists(fill0, all) && result0 == start + Ids(fill0)
    modifies dh`items
    ensures Queues(dh, all - ToSet(fill)) && |dh.items| < old(|dh.items|)
    ensures Lists(fill, all) && result == start + Ids(fill) && |result| == |result0| + 1
  {
    var e := PopItem(dh, all - ToSet(fill0));
    MinusOneMore(all, ToSet(fill0), e);
    ToSetGrows(fill0, e);
    ListsOneMore(fill0, all, e);
    AppendId(start, fill0, e);
    result, fill := result0 + [e.id], fill0 + [e];
  }

  /** Brings the least discarded candidates back while there is room. */
  method Backfill(discarded: seq<Item>, result0: seq<NodeId>, M: nat)
    returns (result: seq<NodeId>, ghost fill: seq<Item>)
    requires Distinct(discarded)
    ensures Refills(fill, ToSet(discarded), M - |result0|) && result == result0 + Ids(fill)
  {
    result, fill := result0, [];
    var dh := QueueAll(discarded);
    ghost var all := ToSet(discarded);
    assert all - ToSet(fill) == all && result == result0 + Ids([]);
    while |dh.items| > 0 && |result| < M
      invariant fresh(dh) && Queues(dh, all - ToSet(fill))
      invariant Lists(fill, all) && (fill == [] || |result| <= M)
      invariant result == result0 + Ids(fill)
      decreases |dh.items|
    {
      result, fill := TakeLeast(dh, result, result0, fill, all);
    }
    AllListed(fill, all);
  }

  lemma AllListed(fill: seq<Item>, from: set<Item>)
    requires Lists(fill, from)
    ensures |from - ToSet(fill)| == |from| - |fill|
  {
    DistinctSize(fill);
    assert ToSet(fill) <= from;
    assert |from - ToSet(fill)| == |from| - |ToSet(fill)|;
  }

  method SelectNeighborsHeuristic(idx: Index, query: Vector, candidates: seq<Item>, M: nat, layer: nat,
                                  keepPruned: bool)
    returns (result: seq<NodeId>, ghost sel: Selection)
    ensures var v := View(idx.metric, idx.Graph(), query, layer);
      && Selects(v, PoolOf(candidates), M, keepPruned, sel)
      && result == Ids(Chosen(v, sel))
      && (keepPruned ==> |result| == Min(M, |Usable(v, PoolOf(candidates))|))
    ensures |result| <= M && Distinct(result)
    ensures forall id :: id in result ==> 0 <= id < |idx.Graph()| && exists c :: c in candidates && c.id == id
  {
    ghost var v := View(idx.metric, idx.Graph(), query, layer);
    ghost var pool := PoolOf(candidates);
    if |candidates| == 0 {
      result, sel := [], Selection(Start, []);
      ChosenIds(v, candidates, M, keepPruned, sel);
      return;
    }
    var working := QueueCandidates(candidates);
    var discarded;
    ghost var t;
    result, discarded, t := SelectDiverse(idx, query, working, M, v, pool);
    KeptOrDiscarded(v, pool, M, t);
    ghost var fill := [];
    if keepPruned {
      ghost var kept := Kept(v, t);
      result, fill := Backfill(discarded, result, M);
      IdsConcat(kept, fill);
    }
    sel := Selection(t, fill);
    assert Chosen(v, sel) == Kept(v, t) + fill;
    assert v == View(idx.metric, idx.Graph(), query, layer);
    ChosenIds(v, candidates, M, keepPruned, sel);
  }
}
