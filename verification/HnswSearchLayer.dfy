/** searchLayer of search.go: greedy best-first search of a single layer. */
module HnswSearchLayer {
  import opened Sets
  import opened Heaps
  import opened HnswGraph
  import opened HnswIndex

  ghost predicate Held(items: seq<Item>, v: View, s: set<NodeId>) {
    forall it :: multiset(items)[it] == if it.id in s && it.dist == v.Dist(it.id) then 1 else 0
  }

  lemma HeldAre(items: seq<Item>, v: View, s: set<NodeId>)
    requires Held(items, v, s)
    ensures forall it :: it in items <==> it.id in s && it.dist == v.Dist(it.id)
  {
    forall it ensures it in items <==> multiset(items)[it] > 0 {}
  }

  /** The queue holds exactly the entries of the nodes in `s`. */
  ghost predicate Holds(h: Heap<Item>, key: Item -> real, v: View, s: set<NodeId>)
    reads h
  {
    h.Valid() && h.key == key && Held(h.items, v, s) && |h.items| == |s|
  }

  /** The head of a queue: nearest for the candidates, furthest for the found set. */
  ghost predicate Extreme(key: Item -> real, v: View, c: NodeId, s: set<NodeId>) {
    (key == Nearer ==> v.Nearest(c, s)) && (key == Further ==> v.Furthest(c, s))
  }

  lemma LeastIsExtreme(key: Item -> real, v: View, c: NodeId, s: set<NodeId>)
    requires c in s && forall b :: b in s ==> key(Item(c, v.Dist(c))) <= key(Item(b, v.Dist(b)))
    ensures Extreme(key, v, c, s)
  {
    forall b | b in s
      ensures key == Nearer ==> v.Dist(c) <= v.Dist(b)
      ensures key == Further ==> v.Dist(b) <= v.Dist(c)
    {
      assert key(Item(c, v.Dist(c))) <= key(Item(b, v.Dist(b)));
    }
  }

  method PushNode(h: Heap<Item>, item: Item, ghost v: View, ghost s: set<NodeId>)
    requires Holds(h, h.key, v, s) && item.id !in s && item.dist == v.Dist(item.id)
    modifies h`items
    ensures Holds(h, h.key, v, s + {item.id})
  {
    h.Push(item);
  }

  method PeekNode(h: Heap<Item>, ghost v: View, ghost s: set<NodeId>) returns (item: Item)
    requires Holds(h, h.key, v, s) && h.items != []
    ensures item.id in s && item.dist == v.Dist(item.id)
    ensures Extreme(h.key, v, item.id, s)
  {
    item := h.Peek();
    HeldAre(h.items, v, s);
    LeastIsExtreme(h.key, v, item.id, s);
  }

  method PopNode(h: Heap<Item>, ghost v: View, ghost s: set<NodeId>) returns (item: Item)
    requires Holds(h, h.key, v, s) && h.items != []
    modifies h`items
    ensures item.id in s && item.dist == v.Dist(item.id) && Holds(h, h.key, v, s - {item.id})
    ensures Extreme(h.key, v, item.id, s)
  {
    HeldAre(h.items, v, s);
    item := h.Pop();
    LeastIsExtreme(h.key, v, item.id, s);
  }

  /** What the search loop keeps true of its two queues. */
  ghost predicate Searching(v: View, candidates: Heap<Item>, found: Heap<Item>, seen: set<NodeId>,
                            trail: Trail<NodeId>, pending: set<NodeId>, kept: set<NodeId>, cap: nat)
    reads candidates, found
  {
    && candidates != found
    && Holds(candidates, Nearer, v, pending)
    && Holds(found, Further, v, kept)
    && v.Frontier(seen, trail, pending, kept, cap)
    && v.InRange(seen)
  }

  /** The body of the neighbour loop for one node not seen before. */
  method Visit(candidates: Heap<Item>, found: Heap<Item>, item: Item, ef: int, ghost v: View, ghost seen: set<NodeId>,
               ghost trail: Trail<NodeId>, ghost pending: set<NodeId>, ghost kept: set<NodeId>, ghost cap: nat)
    returns (ghost pending': set<NodeId>, ghost kept': set<NodeId>)
    requires Searching(v, candidates, found, seen, trail, pending, kept, cap)
    requires kept != {} && ef <= cap && (ef == cap || |kept| == cap)
    requires 0 <= item.id < |v.graph| && item.id !in seen && item.dist == v.Dist(item.id)
    modifies candidates`items, found`items
    ensures Searching(v, candidates, found, seen + {item.id}, trail, pending', kept', cap)
    ensures kept' != {} && (ef == cap || |kept'| == cap)
    ensures |candidates.items| <= old(|candidates.items|) + 1
  {
    var f := PeekNode(found, v, kept);
    pending', kept' := pending, kept;
    if |found.items| < ef || item.dist < f.dist {
      PushNode(candidates, item, v, pending);
      PushNode(found, item, v, kept);
      pending', kept' := pending + {item.id}, kept + {item.id};
      if |found.items| > ef {
        var w := PopNode(found, v, kept');
        assert |kept| == cap by { SubsetSize(kept, seen); }
        v.KeepAndEvict(seen, trail, pending, kept, cap, item.id, w.id);
        kept' := kept' - {w.id};
      } else {
        v.Keep(seen, trail, pending, kept, cap, item.id);
      }
    } else {
      assert |kept| == cap by { SubsetSize(kept, seen); }
      v.Reject(seen, trail, pending, kept, cap, item.id, f.id);
    }
  }

  ghost predicate Tracks(visited: set<NodeId>, v: View, seen: set<NodeId>) {
    forall n :: 0 <= n < |v.graph| ==> (n in visited <==> n in seen)
  }

  /** The body of the entry-point loop: an ID in range and not yet seen enters both queues. */
  method SeedOne(idx: Index, query: Vector, epID: NodeId, candidates: Heap<Item>, found: Heap<Item>,
                 visited0: set<NodeId>, ghost v: View, ghost seen: set<NodeId>)
    returns (visited: set<NodeId>)
    requires Sees(idx, query, v) && candidates != found && Tracks(visited0, v, seen)
    requires Holds(candidates, Nearer, v, seen) && Holds(found, Further, v, seen)
    modifies candidates`items, found`items
    ensures var seen' := seen + v.One(epID);
      Tracks(visited, v, seen') && Holds(candidates, Nearer, v, seen') && Holds(found, Further, v, seen')
  {
    visited := visited0 + {epID};
    if epID in visited0 || !(0 <= epID < |idx.nodes|) {
      v.NoneMore(seen, epID);
    } else {
      var item := Item(epID, idx.metric(query, idx.nodes[epID].Vector));
      PushNode(candidates, item, v, seen);
      PushNode(found, item, v, seen);
    }
  }

  method Seed(idx: Index, query: Vector, entryIDs: seq<NodeId>, candidates: Heap<Item>, found: Heap<Item>,
              ghost v: View)
    returns (visited: set<NodeId>)
    requires Sees(idx, query, v) && candidates != found
    requires Holds(candidates, Nearer, v, {}) && Holds(found, Further, v, {})
    modifies candidates`items, found`items
    ensures Tracks(visited, v, v.Starts(entryIDs))
    ensures Holds(candidates, Nearer, v, v.Starts(entryIDs)) && Holds(found, Further, v, v.Starts(entryIDs))
  {
    visited := {};
    v.WithNone({}, entryIDs);
    for i := 0 to |entryIDs|
      invariant Tracks(visited, v, v.With({}, entryIDs, i))
      invariant Holds(candidates, Nearer, v, v.With({}, entryIDs, i))
      invariant Holds(found, Further, v, v.With({}, entryIDs, i))
    {
      v.WithOneMore({}, entryIDs, i);
      visited := SeedOne(idx, query, entryIDs[i], candidates, found, visited, v, v.With({}, entryIDs, i));
    }
    v.WithAll({}, entryIDs);
    assert {} + v.Starts(entryIDs) == v.Starts(entryIDs);
  }

  /** The body of the neighbour loop. */
  method VisitOnce(idx: Index, query: Vector, nID: NodeId, candidates: Heap<Item>, found: Heap<Item>, ef: int,
                   visited0: set<NodeId>, ghost v: View, ghost seen: set<NodeId>, ghost trail: Trail<NodeId>,
                   ghost pending0: set<NodeId>, ghost kept0: set<NodeId>, ghost cap: nat)
    returns (visited: set<NodeId>, ghost pending: set<NodeId>, ghost kept: set<NodeId>)
    requires Sees(idx, query, v)
    requires Searching(v, candidates, found, seen, trail, pending0, kept0, cap) && Tracks(visited0, v, seen)
    requires kept0 != {} && ef <= cap && (ef == cap || |kept0| == cap)
    modifies candidates`items, found`items
    ensures Searching(v, candidates, found, seen + v.One(nID), trail, pending, kept, cap)
    ensures Tracks(visited, v, seen + v.One(nID))
    ensures |candidates.items| - 2 * |seen + v.One(nID)| <= old(|candidates.items|) - 2 * |seen|
    ensures kept != {} && (ef == cap || |kept| == cap)
  {
    visited, pending, kept := visited0, pending0, kept0;
    if nID in visited || !(0 <= nID < |idx.nodes|) {
      v.NoneMore(seen, nID);
      visited := visited + {nID};
    } else {
      visited := visited + {nID};
      var item := Item(nID, idx.metric(query, idx.nodes[nID].Vector));
      assert v.One(nID) == {nID} && |seen + {nID}| == |seen| + 1;
      pending, kept := Visit(candidates, found, item, ef, v, seen, trail, pending, kept, cap);
    }
  }

  /** The loop over the neighbours of an expanded node. */
  method VisitNeighbors(idx: Index, query: Vector, neighbors: seq<NodeId>, candidates: Heap<Item>, found: Heap<Item>,
                        ef: int, visited0: set<NodeId>, ghost v: View, ghost seen0: set<NodeId>,
                        ghost trail: Trail<NodeId>, ghost pending0: set<NodeId>, ghost kept0: set<NodeId>,
                        ghost cap: nat)
    returns (visited: set<NodeId>, ghost pending: set<NodeId>, ghost kept: set<NodeId>)
    requires Sees(idx, query, v)
    requires Searching(v, candidates, found, seen0, trail, pending0, kept0, cap) && Tracks(visited0, v, seen0)
    requires kept0 != {} && ef <= cap && (ef == cap || |kept0| == cap)
    modifies candidates`items, found`items
    ensures var seen := seen0 + v.Starts(neighbors);
      && Searching(v, candidates, found, seen, trail, pending, kept, cap) && Tracks(visited, v, seen)
      && |candidates.items| - 2 * |seen| <= old(|candidates.items|) - 2 * |seen0|
    ensures kept != {} && (ef == cap || |kept| == cap)
  {
    visited, pending, kept := visited0, pending0, kept0;
    v.WithNone(seen0, neighbors);
    for j := 0 to |neighbors|
      invariant Searching(v, candidates, found, v.With(seen0, neighbors, j), trail, pending, kept, cap)
      invariant Tracks(visited, v, v.With(seen0, neighbors, j))
      invariant kept != {} && (ef == cap || |kept| == cap)
      invariant |candidates.items| - 2 * |v.With(seen0, neighbors, j)| <= old(|candidates.items|) - 2 * |seen0|
    {
      v.WithOneMore(seen0, neighbors, j);
      visited, pending, kept := VisitOnce(idx, query, neighbors[j], candidates, found, ef, visited, v,
                                          v.With(seen0, neighbors, j), trail, pending, kept, cap);
    }
    v.WithAll(seen0, neighbors);
  }

  /** What the main loop keeps true. */
  ghost predicate Loop(v: View, starts: set<NodeId>, cap: nat, ef: int, candidates: Heap<Item>, found: Heap<Item>,
                       visited: set<NodeId>, trail: Trail<NodeId>, pending: set<NodeId>, kept: set<NodeId>)
    reads candidates, found
  {
    var seen := v.Seen(starts, trail);
    && v.BestFirst(starts, cap, trail)
    && Searching(v, candidates, found, seen, trail, pending, kept, cap)
    && Tracks(visited, v, seen)
    && (kept != {} || pending == {})
    && ef <= cap && (ef == cap || |kept| == cap)
  }

  /** Expands the nearest candidate c, already taken off its queue. */
  method ExpandNode(idx: Index, query: Vector, layer: nat, c: NodeId, candidates: Heap<Item>, found: Heap<Item>,
                    ef: int, visited0: set<NodeId>, ghost v: View, ghost starts: set<NodeId>, ghost cap: nat,
                    ghost trail: Trail<NodeId>, ghost pending0: set<NodeId>, ghost kept0: set<NodeId>)
    returns (visited: set<NodeId>, ghost pending: set<NodeId>, ghost kept: set<NodeId>)
    requires Sees(idx, query, v) && v.layer == layer
    requires v.BestFirst(starts, cap, Then(trail, c)) && c in v.Seen(starts, trail)
    requires Searching(v, candidates, found, v.Seen(starts, trail), Then(trail, c), pending0, kept0, cap)
    requires Tracks(visited0, v, v.Seen(starts, trail))
    requires kept0 != {} && ef <= cap && (ef == cap || |kept0| == cap)
    modifies candidates`items, found`items
    ensures Loop(v, starts, cap, ef, candidates, found, visited, Then(trail, c), pending, kept)
    ensures var seen, seen' := v.Seen(starts, trail), v.Seen(starts, Then(trail, c));
      |candidates.items| - 2 * |seen'| <= old(|candidates.items|) - 2 * |seen|
  {
    var neighbors := idx.nodes[c].GetLinks(layer);
    assert neighbors == LinksAt(v.graph, c, layer);
    visited, pending, kept := VisitNeighbors(idx, query, neighbors, candidates, found, ef, visited0, v,
                                             v.Seen(starts, trail), Then(trail, c), pending0, kept0, cap);
  }

  /** One round of the main loop: expand the nearest candidate, or find that the search is over. */
  method ExpandNearest(idx: Index, query: Vector, layer: nat, candidates: Heap<Item>, found: Heap<Item>, ef: int,
                       visited0: set<NodeId>, ghost v: View, ghost starts: set<NodeId>, ghost cap: nat,
                       ghost trail0: Trail<NodeId>, ghost pending0: set<NodeId>, ghost kept0: set<NodeId>)
    returns (done: bool, visited: set<NodeId>, ghost trail: Trail<NodeId>, ghost pending: set<NodeId>,
             ghost kept: set<NodeId>)
    requires Sees(idx, query, v) && v.layer == layer
    requires Loop(v, starts, cap, ef, candidates, found, visited0, trail0, pending0, kept0)
    requires |candidates.items| > 0
    modifies candidates`items, found`items
    ensures done ==> Holds(found, Further, v, kept) && v.Explores(starts, cap, trail, kept)
    ensures !done ==> Loop(v, starts, cap, ef, candidates, found, visited, trail, pending, kept)
    ensures !done ==>
      |candidates.items| - 2 * |v.Seen(starts, trail)| < old(|candidates.items|) - 2 * |v.Seen(starts, trail0)|
  {
    hide View.BestFirst, View.Closest, View.Explores;
    visited, trail, pending, kept := visited0, trail0, pending0, kept0;
    var c := PopNode(candidates, v, pending);
    var f := PeekNode(found, v, kept);
    done := c.dist > f.dist;
    if done {
      v.Stop(starts, trail, pending, kept, cap);
    } else {
      v.Expand(starts, trail, pending, kept, cap, c.id, f.id);
      visited, pending, kept := ExpandNode(idx, query, layer, c.id, candidates, found, ef, visited, v, starts, cap,
                                           trail, pending - {c.id}, kept);
      trail := Then(trail, c.id);
    }
  }

  /** The main loop. */
  method SearchLoop(idx: Index, query: Vector, layer: nat, candidates: Heap<Item>, found: Heap<Item>, ef: int,
                    visited0: set<NodeId>, ghost v: View, ghost starts: set<NodeId>, ghost cap: nat)
    returns (ghost trail: Trail<NodeId>, ghost kept: set<NodeId>)
    requires Sees(idx, query, v) && v.layer == layer
    requires Loop(v, starts, cap, ef, candidates, found, visited0, Start, starts, starts)
    modifies candidates`items, found`items
    ensures Holds(found, Further, v, kept) && v.Explores(starts, cap, trail, kept)
  {
    var visited, done := visited0, false;
    ghost var pending := starts;
    trail, kept := Start, starts;
    while !done && |candidates.items| > 0
      invariant !done ==> Loop(v, starts, cap, ef, candidates, found, visited, trail, pending, kept)
      invariant done ==> Holds(found, Further, v, kept) && v.Explores(starts, cap, trail, kept)
      decreases !done, |candidates.items| + 2 * (|v.graph| - |v.Seen(starts, trail)|)
    {
      done, visited, trail, pending, kept := ExpandNearest(idx, query, layer, candidates, found, ef, visited, v,
                                                           starts, cap, trail, pending, kept);
      if !done {
        SubsetSize(v.Seen(starts, trail), AllBelow(|v.graph|));
      }
    }
    if !done {
      v.Stop(starts, trail, pending, kept, cap);
    }
  }

  method SearchLayer(idx: Index, query: Vector, entryIDs: seq<NodeId>, ef: int, layer: nat)
    returns (found: Heap<Item>, ghost trail: Trail<NodeId>, ghost kept: set<NodeId>)
    ensures fresh(found)
    ensures var v := View(idx.metric, idx.Graph(), query, layer);
      && Holds(found, Further, v, kept)
      && v.Explores(v.Starts(entryIDs), Max(ef, |v.Starts(entryIDs)|), trail, kept)
  {
    ghost var v := View(idx.metric, idx.Graph(), query, layer);
    ghost var starts := v.Starts(entryIDs);
    var candidates := new Heap<Item>(Nearer);
    found := new Heap<Item>(Further);
    var visited := Seed(idx, query, entryIDs, candidates, found, v);
    trail, kept := SearchLoop(idx, query, layer, candidates, found, ef, visited, v, starts, Max(ef, |starts|));
    assert v == View(idx.metric, idx.Graph(), query, layer);
  }
}
