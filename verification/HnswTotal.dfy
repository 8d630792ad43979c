/** Whatever the index and the level, there is a way for a search, a selection and an Insert that
    does not fault to go: the relations are never empty. */
module HnswTotal {
  import opened Sets
  import opened HnswGraph
  import opened HnswIndex
  import opened HnswNeighbors
  import opened HnswSpec
  import opened HnswInvariant
  import opened HnswInsert
  import opened HnswServed

  // ---------- the search of a layer ----------

  lemma {:induction false} NearestOne(v: View, s: set<NodeId>) returns (c: NodeId)
    requires s != {}
    ensures v.Nearest(c, s)
  {
    c := PickOne(s);
    if s != {c} {
      var d := NearestOne(v, s - {c});
      assert s == (s - {c}) + {c};
      c := if v.Dist(d) <= v.Dist(c) then d else c;
    }
  }

  lemma {:induction false} ClosestSome(v: View, s: set<NodeId>, cap: nat) returns (best: set<NodeId>)
    ensures v.Closest(best, s, cap)
    decreases |s|
  {
    best := {};
    if s != {} && cap > 0 {
      var c := NearestOne(v, s);
      var rest := ClosestSome(v, s - {c}, cap - 1);
      best := rest + {c};
      assert |best| == |rest| + 1 && |s| == |s - {c}| + 1;
    }
  }

  /** Where everything seen is expanded, or enough of it is closer than what is not, the search ends. */
  lemma SearchEnds(v: View, starts: set<NodeId>, cap: nat, trail: Trail<NodeId>, near: set<NodeId>)
    returns (found: set<NodeId>)
    requires v.BestFirst(starts, cap, trail) && near <= trail.Nodes() && near <= v.Seen(starts, trail)
    requires near == v.Seen(starts, trail) || |near| >= cap
    requires forall b, w :: b in near && w in v.Seen(starts, trail) - near ==> v.Dist(b) <= v.Dist(w)
    ensures v.Explores(starts, cap, trail, found)
  {
    hide View.BestFirst;
    found := ClosestSome(v, near, cap);
    SubsetSize(near, v.Seen(starts, trail));
  }

  lemma ExpandedNext(v: View, starts: set<NodeId>, cap: nat, trail: Trail<NodeId>, c: NodeId)
    requires v.BestFirst(starts, cap, trail) && trail.Nodes() <= v.Seen(starts, trail)
    requires v.Nearest(c, v.Seen(starts, trail) - trail.Nodes()) && |v.Closer(v.Seen(starts, trail), c)| < cap
    ensures var more := Then(trail, c);
      v.BestFirst(starts, cap, more) && more.Nodes() <= v.Seen(starts, more) && |more.Nodes()| == |trail.Nodes()| + 1
  {
    assert Then(trail, c).Nodes() == trail.Nodes() + {c};
  }

  /** A best-first search that has expanded `trail` can be carried on to its end. */
  lemma {:induction false} SearchGoesOn(v: View, starts: set<NodeId>, cap: nat, trail: Trail<NodeId>)
    returns (all: Trail<NodeId>, found: set<NodeId>)
    requires v.InRange(starts) && v.BestFirst(starts, cap, trail) && trail.Nodes() <= v.Seen(starts, trail)
    ensures v.Explores(starts, cap, all, found)
    decreases |v.graph| - |trail.Nodes()|
  {
    hide View.BestFirst, View.Explores, View.Seen;
    var seen, nodes := v.Seen(starts, trail), trail.Nodes();
    v.SeenHolds(starts, trail, 0);
    all := trail;
    if seen == nodes {
      found := SearchEnds(v, starts, cap, trail, nodes);
      return;
    }
    var c := NearestOne(v, seen - nodes);
    var closer := v.Closer(seen, c);
    if |closer| < cap {
      ExpandedNext(v, starts, cap, trail, c);
      SubsetSize(nodes + {c}, AllBelow(|v.graph|));
      all, found := SearchGoesOn(v, starts, cap, Then(trail, c));
    } else {
      found := SearchEnds(v, starts, cap, trail, closer);
    }
  }

  lemma SearchHappens(v: View, starts: set<NodeId>, cap: nat) returns (trail: Trail<NodeId>, found: set<NodeId>)
    requires v.InRange(starts)
    ensures v.Explores(starts, cap, trail, found)
  {
    var none: Trail<NodeId> := Start;
    trail, found := SearchGoesOn(v, starts, cap, none);
  }

  lemma {:induction false} DrainHappens(v: View, found: set<NodeId>) returns (items: seq<Item>)
    ensures Drains(v, found, items)
  {
    items := [];
    if found != {} {
      var c := NearestOne(v, found);
      var front := DrainHappens(v, found - {c});
      items := front + [Item(c, v.Dist(c))];
      IdsConcat(front, [Item(c, v.Dist(c))]);
      ToSetGrows(Ids(front), c);
      assert Ids(items) == Ids(front) + [c] && found == (found - {c}) + {c};
      assert forall k :: 0 <= k < |front| ==> Ids(front)[k] in ToSet(Ids(front));
    }
  }

  // ---------- the selection of neighbours ----------

  lemma {:induction false} LeadingOne(s: set<Item>) returns (e: Item)
    requires s != {}
    ensures Leading(e, s)
  {
    e := PickOne(s);
    if s != {e} {
      var d := LeadingOne(s - {e});
      assert s == (s - {e}) + {e};
      e := if d.dist <= e.dist then d else e;
    }
  }

  lemma SomeLeft<T>(from: set<T>, taken: set<T>)
    requires |taken| < |from|
    ensures from - taken != {}
  {
    if from - taken == {} {
      assert forall x :: x in from ==> x in taken || x in from - taken;
      SubsetSize(from, taken);
    }
  }

  lemma {:induction false} FillHappens(from: set<Item>, n: nat) returns (fill: seq<Item>)
    ensures Refills(fill, from, n)
  {
    fill := [];
    if n > 0 {
      var front := FillHappens(from, n - 1);
      DistinctSize(front);
      fill := front;
      if |front| < |from| && |front| == n - 1 {
        SomeLeft(from, ToSet(front));
        var e := LeadingOne(from - ToSet(front));
        ListsOneMore(front, from, e);
        fill := front + [e];
      }
    }
  }

  lemma {:induction false} ExaminingGoesOn(v: View, pool: set<Item>, M: nat, t: Trail<Item>) returns (all: Trail<Item>)
    requires NearestFirst(v, pool, M, t)
    ensures NearestFirst(v, pool, M, all) && (|Kept(v, all)| >= M || all.Nodes() >= pool)
    decreases |pool - t.Nodes()|
  {
    all := t;
    if |Kept(v, t)| < M && !(t.Nodes() >= pool) {
      var x :| x in pool && x !in t.Nodes();
      assert x in pool - t.Nodes();
      var e := LeadingOne(pool - t.Nodes());
      MinusOneMore(pool, t.Nodes(), e);
      all := ExaminingGoesOn(v, pool, M, Then(t, e));
    }
  }

  lemma SelectionHappens(v: View, pool: set<Item>, M: nat) returns (sel: Selection)
    ensures Selects(v, pool, M, true, sel)
  {
    var t := ExaminingGoesOn(v, pool, M, Start);
    KeptAtMost(v, pool, M, t);
    var fill := FillHappens(ToSet(Discarded(v, t)), M - |Kept(v, t)|);
    sel := Selection(t, fill);
  }

  // ---------- linking ----------

  lemma PruneHappens(metric: Metric, g: Graph, n: NodeId, layer: nat, maxConn: nat) returns (g': Graph)
    requires 0 <= n < |g| && layer < |g[n].links|
    ensures Prunes(metric, g, n, layer, maxConn, g')
  {
    var v, links := View(metric, g, g[n].vector, layer), g[n].links[layer];
    var sel := SelectionHappens(v, PoolOf(LinkItems(v, links, |links|)), maxConn);
    g' := SetLinks(g, n, layer, Ids(Chosen(v, sel)));
  }

  lemma LinkHappens(metric: Metric, g: Graph, id: NodeId, n: NodeId, layer: nat, maxConn: nat) returns (g': Graph)
    requires 0 <= id < |g| && layer < |g[id].links| && LinkTarget(g, id, n, layer)
    ensures Links(metric, g, id, n, layer, maxConn, g')
  {
    hide Prunes;
    var both := Append(Append(g, id, layer, n), n, layer, id);
    g' := both;
    if |both[n].links[layer]| > maxConn {
      g' := PruneHappens(metric, both, n, layer, maxConn);
    }
  }

  lemma {:induction false} LinkingHappens(metric: Metric, g: Graph, id: NodeId, ns: seq<NodeId>, k: nat, layer: nat,
                                          maxConn: nat) returns (graphs: Trail<Graph>)
    requires 0 <= id < |g| && layer < |g[id].links| && AllFit(g, id, ns, layer) && k <= |ns|
    ensures Steps(Linking(metric, id, ns, layer, maxConn), g, k, graphs)
  {
    hide Links;
    graphs := Start;
    if k > 0 {
      var before := LinkingHappens(metric, g, id, ns, k - 1, layer, maxConn);
      StepsSameNodes(metric, id, ns, layer, maxConn, g, k - 1, before);
      var mid := Now(g, before);
      assert ns[k - 1] in ns && LinkTarget(g, id, ns[k - 1], layer);
      assert |mid[id].links| == |g[id].links| && |mid[ns[k - 1]].links| == |g[ns[k - 1]].links|;
      var after := LinkHappens(metric, mid, id, ns[k - 1], layer, maxConn);
      graphs := Then(before, after);
      assert Linking(metric, id, ns, layer, maxConn)(mid, k - 1, after);
    }
  }

  /** One round of phase 2. */
  lemma RoundHappens(metric: Metric, g: Graph, config: Config, id: NodeId, vector: Vector, entries: seq<NodeId>,
                     layer: nat) returns (log: LayerLog)
    requires Ready(g, config, id, layer) && EntriesOn(g, id, entries, layer)
    ensures Connecting(metric, config, id, vector)(g, entries, layer, log)
  {
    hide Steps, Selects, Drains, View.Explores, GraphOk, Fresh;
    var v := View(metric, g, vector, layer);
    var starts := v.Starts(entries);
    var trail, found := SearchHappens(v, starts, Max(config.efConstruction, |starts|));
    var items := DrainHappens(v, found);
    DrainedIs(v, found, items);
    var sel := SelectionHappens(v, PoolOf(items), config.MaxConn(layer));
    SelectionFits(v, config, id, entries, true, trail, items, sel);
    var ns := Ids(Chosen(v, sel));
    var graphs := LinkingHappens(metric, g, id, ns, |ns|, layer, config.MaxConn(layer));
    log := LayerLog(trail, items, sel, graphs, Now(g, graphs));
  }

  lemma DrainedIs(v: View, found: set<NodeId>, items: seq<Item>)
    requires Drains(v, found, items)
    ensures ToSet(Ids(items)) == found && Distinct(Ids(items))
  {
  }

  /** Phase 2. */
  lemma {:induction false} RoundsHappen(metric: Metric, g: Graph, config: Config, id: NodeId, vector: Vector,
                                        entries: seq<NodeId>, top: nat, low: nat) returns (logs: Trail<LayerLog>)
    requires config.efConstruction >= 1 && config.m >= 1 && config.mmax0 == 2 * config.m
    requires Standing(g, g, config, id, entries, top + 1) && low <= top + 1
    ensures Rounds(Connecting(metric, config, id, vector), g, entries, top, low, logs)
    decreases top + 1 - low
  {
    hide GraphOk, Fresh, ConnectsAt;
    logs := Start;
    if low <= top {
      var before := RoundsHappen(metric, g, config, id, vector, entries, top, low + 1);
      ConnectsKeeps(metric, config, g, id, vector, entries, top, low + 1, before);
      var log := RoundHappens(metric, After(g, before), config, id, vector, Entries(entries, before), low);
      logs := Then(before, log);
    }
  }

  // ---------- the descent, and Insert ----------

  lemma HopHappens(v: View, from: NodeId) returns (hop: Hop)
    requires 0 <= from < |v.graph|
    ensures v.Explores({from}, 1, hop.trail, {hop.node}) && 0 <= hop.node < |v.graph|
  {
    var trail, found := SearchHappens(v, {from}, 1);
    OneFound(v, from, trail, found);
    var n := PickOne(found);
    assert found == {n} by {
      SubsetOfSameSize({n}, found);
    }
    hop := Hop(trail, n);
  }

  lemma {:induction false} DescentHappens(metric: Metric, g: Graph, query: Vector, ep: NodeId, top: nat, low: nat)
    returns (hops: Trail<Hop>)
    requires 0 <= ep < |g|
    ensures Descends(Greedy(metric, g, query), ep, top, low, hops) && 0 <= Reach(ep, hops) < |g|
    decreases top + 1 - low
  {
    hide View.Explores;
    hops := Start;
    if low <= top {
      var before := DescentHappens(metric, g, query, ep, top, low + 1);
      var hop := HopHappens(View(metric, g, query, low), Reach(ep, before));
      hops := Then(before, hop);
    }
  }

  /** An Insert that does not fault has an outcome, whatever the level. */
  lemma InsertHappens(metric: Metric, s: State, key: string, vector: Vector, metadata: Metadata, level: nat)
    returns (log: InsertLog, s': State)
    requires WellFormed(s) && !Faults(s, key, level)
    ensures Inserts(metric, s, key, vector, metadata, level, log, s')
  {
    hide GraphOk, Rounds, Descends, Standing;
    log := InsertLog(Start, Start);
    var id, r := |s.graph|, Registered(s, key, vector, metadata, level);
    if key in s.idMap {
      s' := Updated(s, key, vector, metadata);
    } else if s.graph == [] {
      s' := r.(entryPoint := id, maxLayer := level);
    } else {
      var hops := DescentHappens(metric, r.graph, vector, s.entryPoint, s.maxLayer, level + 1);
      StartsOn(metric, s, key, vector, metadata, level, hops);
      var logs := RoundsHappen(metric, r.graph, s.config, id, vector, [Reach(s.entryPoint, hops)],
                               Min(level, s.maxLayer), 0);
      log := InsertLog(hops, logs);
      var linked := r.(graph := After(r.graph, logs));
      s' := if level > s.maxLayer then linked.(entryPoint := id, maxLayer := level) else linked;
    }
  }

  /** A call into an open index of the vector's dimension: it comes back unless it faults. */
  lemma CallHappens(metric: Metric, x: Served, key: string, vector: Vector, metadata: Metadata, level: nat)
    returns (x': Served)
    requires Open(x, |vector|) && Drawn(x.state.config, level)
    ensures Inserting(metric, x, key, vector, metadata, level, x', !Faults(x.state, key, level))
    ensures !Faults(x.state, key, level) ==>
      exists log :: Inserts(metric, x.state, key, vector, metadata, level, log, x'.state)
  {
    hide Inserts, GraphOk, Stalled, Faulted;
    var s := x.state;
    if Faults(s, key, level) {
      x' := Served(Faulted(s, key, vector, metadata, level), x.held + {s.entryPoint, |s.graph|}, false);
    } else {
      var log, s' := InsertHappens(metric, s, key, vector, metadata, level);
      x' := x.(state := s');
      InsertIsServed(metric, s, key, vector, metadata, level, log, s');
      assert x == Served(s, NO_LOCKS, false);
    }
  }
}
