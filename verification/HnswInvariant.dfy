/** What every Insert and Delete keeps: the graph stays well formed and the key maps agree
    with the tombstones.  From this follows when Insert can fault. */
module HnswInvariant {
  import opened Sets
  import opened HnswGraph
  import opened HnswNeighbors
  import opened HnswSpec

  /** Links are in range, distinct, never to the node itself, and never to a node below the layer. */
  ghost predicate ListOk(g: Graph, i: NodeId, layer: nat, list: seq<NodeId>) {
    Distinct(list) && forall n :: n in list ==> 0 <= n < |g| && n != i && layer < |g[n].links|
  }

  ghost predicate GraphOk(g: Graph, config: Config) {
    && (forall i {:trigger g[i]} :: 0 <= i < |g| ==> g[i].links != [])
    && (forall i, l: nat {:trigger LinksAt(g, i, l)} ::
          ListOk(g, i, l, LinksAt(g, i, l)) && |LinksAt(g, i, l)| <= config.MaxConn(l))
  }

  /** A node is live exactly when the key maps lead from its key back to it. */
  ghost predicate KeysOk(s: State) {
    && |s.reverseMap| == |s.graph|
    && (forall k :: k in s.idMap ==>
          0 <= s.idMap[k] < |s.graph| && s.reverseMap[s.idMap[k]] == k && !s.graph[s.idMap[k]].deleted)
    && (forall i :: 0 <= i < |s.graph| && !s.graph[i].deleted ==>
          s.reverseMap[i] in s.idMap && s.idMap[s.reverseMap[i]] == i)
  }

  ghost predicate WellFormed(s: State) {
    && s.config.m >= 1 && s.config.mmax0 == 2 * s.config.m && s.config.efConstruction >= 1
    && GraphOk(s.graph, s.config)
    && KeysOk(s)
    && (s.graph != [] ==> 0 <= s.entryPoint < |s.graph|)
    && (forall i :: 0 <= i < |s.graph| ==> s.graph[i].Level() <= s.maxLayer)
  }

  ghost predicate EntryOnTop(s: State) {
    s.graph != [] ==> 0 <= s.entryPoint < |s.graph| && s.graph[s.entryPoint].Level() == s.maxLayer
  }

  /** The two graphs differ in link lists only. */
  ghost predicate SameNodes(g: Graph, g': Graph) {
    && |g'| == |g|
    && forall i {:trigger g'[i]} :: 0 <= i < |g| ==>
         && g'[i].vector == g[i].vector && g'[i].metadata == g[i].metadata
         && g'[i].deleted == g[i].deleted && |g'[i].links| == |g[i].links|
  }

  lemma SetLinksAt(g: Graph, i: NodeId, layer: nat, list: seq<NodeId>)
    requires 0 <= i < |g| && layer < |g[i].links|
    ensures var g' := SetLinks(g, i, layer, list);
      && SameNodes(g, g')
      && LinksAt(g', i, layer) == list
      && forall j, l: nat {:trigger LinksAt(g', j, l)} :: j != i || l != layer ==> LinksAt(g', j, l) == LinksAt(g, j, l)
  {
  }

  lemma SetLinksTwice(g: Graph, i: NodeId, layer: nat, a: seq<NodeId>, b: seq<NodeId>)
    requires 0 <= i < |g| && layer < |g[i].links|
    ensures SetLinks(SetLinks(g, i, layer, a), i, layer, b) == SetLinks(g, i, layer, b)
  {
    assert g[i].links[layer := a][layer := b] == g[i].links[layer := b];
    assert SetLinks(SetLinks(g, i, layer, a), i, layer, b)[i] == SetLinks(g, i, layer, b)[i];
  }

  lemma SetLinksKeepsOk(g: Graph, config: Config, i: NodeId, layer: nat, list: seq<NodeId>)
    requires GraphOk(g, config) && 0 <= i < |g| && layer < |g[i].links|
    requires ListOk(g, i, layer, list) && |list| <= config.MaxConn(layer)
    ensures GraphOk(SetLinks(g, i, layer, list), config)
  {
    SetLinksAt(g, i, layer, list);
    var g' := SetLinks(g, i, layer, list);
    forall j, l: nat ensures ListOk(g', j, l, LinksAt(g', j, l)) && |LinksAt(g', j, l)| <= config.MaxConn(l) {
      assert ListOk(g, j, l, LinksAt(g, j, l));
    }
  }

  lemma {:induction false} LinkItemsFromLinks(v: View, links: seq<NodeId>, n: nat, x: Item)
    requires n <= |links| && x in LinkItems(v, links, n)
    ensures x.id in links && 0 <= x.id < |v.graph| && x.dist == v.Dist(x.id)
  {
    if x !in LinkItems(v, links, n - 1) {
      assert x.id == links[n - 1];
    } else {
      LinkItemsFromLinks(v, links, n - 1, x);
    }
  }

  /** Pruning keeps at most maxConn of the links, each once. */
  lemma PruneKeepsSome(metric: Metric, g: Graph, n: NodeId, layer: nat, maxConn: nat, g': Graph)
    returns (list: seq<NodeId>)
    requires Prunes(metric, g, n, layer, maxConn, g')
    ensures g' == SetLinks(g, n, layer, list)
    ensures Distinct(list) && |list| <= maxConn && forall x :: x in list ==> x in g[n].links[layer]
  {
    var v, links := View(metric, g, g[n].vector, layer), g[n].links[layer];
    var items := LinkItems(v, links, |links|);
    var sel :| Selects(v, PoolOf(items), maxConn, true, sel) && g' == SetLinks(g, n, layer, Ids(Chosen(v, sel)));
    list := Ids(Chosen(v, sel));
    PoolHasOneEach(items, |items|);
    SelectionIsSound(v, PoolOf(items), maxConn, true, sel);
    forall x | x in list ensures x in links {
      var k :| 0 <= k < |list| && list[k] == x;
      var item := Chosen(v, sel)[k];
      assert item in Chosen(v, sel);
      LinkItemsFromLinks(v, links, |links|, item);
    }
  }

  /** While `id` is being linked to the first k of `ns` at `layer`. */
  ghost predicate MidLink(g: Graph, config: Config, id: NodeId, ns: seq<NodeId>, k: nat, layer: nat)
    requires k <= |ns|
  {
    && GraphOk(g, config)
    && 0 <= id < |g| && layer < |g[id].links|
    && LinksAt(g, id, layer) == ns[..k]
    && (forall i :: id in LinksAt(g, i, layer) ==> i in ns[..k])
    && Fresh(g, id, layer)
  }

  /** `id` has no links, in or out, below `layer`. */
  ghost predicate Fresh(g: Graph, id: NodeId, layer: nat) {
    forall i, l: nat {:trigger LinksAt(g, i, l)} :: l < layer ==>
      id !in LinksAt(g, i, l) && (i == id ==> LinksAt(g, i, l) == [])
  }

  ghost predicate LinkTarget(g: Graph, id: NodeId, n: NodeId, layer: nat) {
    n != id && 0 <= n < |g| && layer < |g[n].links|
  }

  lemma AppendOut(g: Graph, config: Config, id: NodeId, ns: seq<NodeId>, k: nat, layer: nat)
    requires k < |ns| <= config.MaxConn(layer) && Distinct(ns)
    requires MidLink(g, config, id, ns, k, layer) && LinkTarget(g, id, ns[k], layer)
    ensures var g1 := Append(g, id, layer, ns[k]);
      && GraphOk(g1, config) && SameNodes(g, g1)
      && LinksAt(g1, id, layer) == ns[..k + 1]
      && forall j, l: nat {:trigger LinksAt(g1, j, l)} :: j != id || l != layer ==>
        LinksAt(g1, j, l) == LinksAt(g, j, l)
  {
    assert ns[..k + 1] == ns[..k] + [ns[k]];
    assert ListOk(g, id, layer, LinksAt(g, id, layer));
    assert ns[k] !in ns[..k];
    SetLinksAt(g, id, layer, ns[..k + 1]);
    SetLinksKeepsOk(g, config, id, layer, ns[..k + 1]);
  }

  /** Once n has `list` in place of its old links and the link back, linking goes on. */
  lemma AppendIn(g1: Graph, config: Config, id: NodeId, ns: seq<NodeId>, k: nat, layer: nat, list: seq<NodeId>)
    requires k < |ns| && GraphOk(g1, config) && LinkTarget(g1, id, ns[k], layer)
    requires 0 <= id < |g1| && layer < |g1[id].links| && LinksAt(g1, id, layer) == ns[..k + 1]
    requires Fresh(g1, id, layer) && forall i :: id in LinksAt(g1, i, layer) ==> i in ns[..k]
    requires Distinct(list) && |list| <= config.MaxConn(layer)
    requires forall x :: x in list ==> x == id || x in LinksAt(g1, ns[k], layer)
    ensures MidLink(SetLinks(g1, ns[k], layer, list), config, id, ns, k + 1, layer)
  {
    var n := ns[k];
    assert ListOk(g1, n, layer, LinksAt(g1, n, layer));
    SetLinksAt(g1, n, layer, list);
    SetLinksKeepsOk(g1, config, n, layer, list);
    var g' := SetLinks(g1, n, layer, list);
    assert ns[..k + 1] == ns[..k] + [n];
    forall i | id in LinksAt(g', i, layer) ensures i in ns[..k + 1] {
      if i != n { assert id in LinksAt(g1, i, layer); }
    }
  }

  /** One neighbour more. */
  lemma LinkKeeps(metric: Metric, g: Graph, config: Config, id: NodeId, ns: seq<NodeId>, k: nat, layer: nat, g': Graph)
    requires k < |ns| <= config.MaxConn(layer) && Distinct(ns)
    requires MidLink(g, config, id, ns, k, layer) && LinkTarget(g, id, ns[k], layer)
    requires Links(metric, g, id, ns[k], layer, config.MaxConn(layer), g')
    ensures MidLink(g', config, id, ns, k + 1, layer) && SameNodes(g, g')
  {
    var n, maxConn := ns[k], config.MaxConn(layer);
    var g1 := Append(g, id, layer, n);
    AppendOut(g, config, id, ns, k, layer);
    assert n !in ns[..k];
    assert ListOk(g, n, layer, LinksAt(g, n, layer));
    var list := LinksAt(g, n, layer) + [id];
    assert LinksAt(g1, n, layer) == g1[n].links[layer];
    var both := SetLinks(g1, n, layer, list);
    SetLinksAt(g1, n, layer, list);
    assert Append(g1, n, layer, id) == both;
    if |list| > maxConn {
      list := PruneKeepsSome(metric, both, n, layer, maxConn, g');
      SetLinksTwice(g1, n, layer, LinksAt(g, n, layer) + [id], list);
    }
    SetLinksAt(g1, n, layer, list);
    AppendIn(g1, config, id, ns, k, layer, list);
  }

  lemma NextLinkKeeps(metric: Metric, g: Graph, config: Config, id: NodeId, ns: seq<NodeId>, layer: nat, g1: Graph,
                      k: nat, g2: Graph)
    requires k < |ns| <= config.MaxConn(layer) && Distinct(ns) && LinkTarget(g, id, ns[k], layer)
    requires MidLink(g1, config, id, ns, k, layer) && SameNodes(g, g1)
    requires Links(metric, g1, id, ns[k], layer, config.MaxConn(layer), g2)
    ensures MidLink(g2, config, id, ns, k + 1, layer) && SameNodes(g, g2)
  {
    LinkKeeps(metric, g1, config, id, ns, k, layer, g2);
  }

  lemma LinksAllKeep(metric: Metric, g: Graph, config: Config, id: NodeId, ns: seq<NodeId>, layer: nat,
                     graphs: Trail<Graph>)
    requires |ns| <= config.MaxConn(layer) && Distinct(ns) && MidLink(g, config, id, ns, 0, layer)
    requires forall n :: n in ns ==> LinkTarget(g, id, n, layer)
    requires Steps(Linking(metric, id, ns, layer, config.MaxConn(layer)), g, |ns|, graphs)
    ensures MidLink(Now(g, graphs), config, id, ns, |ns|, layer) && SameNodes(g, Now(g, graphs))
  {
    var step := Linking(metric, id, ns, layer, config.MaxConn(layer));
    var keeps := (g1, k) => 0 <= k <= |ns| && MidLink(g1, config, id, ns, k, layer) && SameNodes(g, g1);
    forall g1, k, g2 | 0 <= k < |ns| && keeps(g1, k) && step(g1, k, g2) ensures keeps(g2, k + 1) {
      NextLinkKeeps(metric, g, config, id, ns, layer, g1, k, g2);
    }
    StepsKeep(step, keeps, g, |ns|, graphs);
  }

  // ---------- what a search can find ----------

  /** A search at layer `l` from nodes that exist at a layer t <= l, none of them the
      still unlinked `id`, sees only such nodes. */
  lemma {:induction false} SeenOn(v: View, config: Config, id: NodeId, t: nat, starts: set<NodeId>, cap: nat,
                                  trail: Trail<NodeId>)
    requires t <= v.layer && GraphOk(v.graph, config) && Fresh(v.graph, id, v.layer + 1)
    requires forall e :: e in starts ==> LinkTarget(v.graph, id, e, t)
    requires v.BestFirst(starts, cap, trail)
    ensures forall x :: x in v.Seen(starts, trail) ==> LinkTarget(v.graph, id, x, t)
  {
    if trail.Then? {
      SeenOn(v, config, id, t, starts, cap, trail.before);
      var links := LinksAt(v.graph, trail.last, v.layer);
      assert ListOk(v.graph, trail.last, v.layer, links);
    }
  }

  lemma FindsOn(v: View, config: Config, id: NodeId, t: nat, starts: set<NodeId>, cap: nat, trail: Trail<NodeId>,
                found: set<NodeId>)
    requires t <= v.layer && GraphOk(v.graph, config) && Fresh(v.graph, id, v.layer + 1)
    requires forall e :: e in starts ==> LinkTarget(v.graph, id, e, t)
    requires v.Explores(starts, cap, trail, found)
    ensures forall x :: x in found ==> LinkTarget(v.graph, id, x, t)
  {
    SeenOn(v, config, id, t, starts, cap, trail);
  }

  /** One hop from a node of layer t lands on one. */
  lemma HopLands(v: View, config: Config, id: NodeId, t: nat, cur: NodeId, hop: Hop)
    requires t <= v.layer && GraphOk(v.graph, config) && Fresh(v.graph, id, v.layer + 1)
    requires LinkTarget(v.graph, id, cur, t) && v.Explores({cur}, 1, hop.trail, {hop.node})
    ensures LinkTarget(v.graph, id, hop.node, t)
  {
    FindsOn(v, config, id, t, {cur}, 1, hop.trail, {hop.node});
  }

  lemma HopIsStuck(v: View, cur: NodeId, hop: Hop)
    requires LinksAt(v.graph, cur, v.layer) == [] && v.Explores({cur}, 1, hop.trail, {hop.node})
    ensures hop.node == cur
  {
    StuckAt(v, cur, 1, hop.trail, {hop.node});
    assert hop.node in {hop.node};
  }

  /** From a single node without links at the layer, a search finds that node. */
  lemma {:induction false} StuckSeen(v: View, x: NodeId, cap: nat, trail: Trail<NodeId>)
    requires LinksAt(v.graph, x, v.layer) == [] && v.BestFirst({x}, cap, trail)
    ensures v.Seen({x}, trail) == {x}
  {
    if trail.Then? {
      StuckSeen(v, x, cap, trail.before);
    }
  }

  lemma StuckAt(v: View, x: NodeId, cap: nat, trail: Trail<NodeId>, found: set<NodeId>)
    requires LinksAt(v.graph, x, v.layer) == [] && cap >= 1 && v.Explores({x}, cap, trail, found)
    ensures found == {x}
  {
    StuckSeen(v, x, cap, trail);
    SubsetOfSameSize(found, {x});
  }

  /** The descent ends at a node of layer t whenever it starts at one. */
  lemma {:induction false} DescentLands(metric: Metric, g: Graph, config: Config, query: Vector, id: NodeId, t: nat,
                                        ep: NodeId, top: nat, low: nat, hops: Trail<Hop>)
    requires t <= low && GraphOk(g, config) && LinkTarget(g, id, ep, t) && forall l :: Fresh(g, id, l)
    requires Descends(Greedy(metric, g, query), ep, top, low, hops)
    ensures LinkTarget(g, id, Reach(ep, hops), t)
    decreases top + 1 - low
  {
    if low <= top {
      DescentLands(metric, g, config, query, id, t, ep, top, low + 1, hops.before);
      HopLands(View(metric, g, query, low), config, id, t, Reach(ep, hops.before), hops.last);
    }
  }

  /** Above the level of the entry point the descent does not move. */
  lemma {:induction false} DescentIsStuck(metric: Metric, g: Graph, query: Vector, ep: NodeId, top: nat, low: nat,
                                          hops: Trail<Hop>)
    requires 0 <= ep < |g| && |g[ep].links| <= low
    requires Descends(Greedy(metric, g, query), ep, top, low, hops)
    ensures Reach(ep, hops) == ep
    decreases top + 1 - low
  {
    if low <= top {
      DescentIsStuck(metric, g, query, ep, top, low + 1, hops.before);
      HopIsStuck(View(metric, g, query, low), ep, hops.last);
    }
  }

  // ---------- one layer, all layers ----------

  ghost predicate EntriesOn(g: Graph, id: NodeId, entries: seq<NodeId>, layer: nat) {
    entries != [] && forall e :: e in entries ==> LinkTarget(g, id, e, layer)
  }

  ghost predicate Ready(g: Graph, config: Config, id: NodeId, layer: nat) {
    GraphOk(g, config) && 0 <= id < |g| && layer < |g[id].links| && Fresh(g, id, layer + 1)
  }

  lemma PoolIdsAreFound(items: seq<Item>, x: Item)
    requires x in PoolOf(items)
    ensures x.id in Ids(items)
  {
    PoolHasOneEach(items, |items|);
    var k :| 0 <= k < |items| && items[k] == x;
    assert Ids(items)[k] == x.id;
  }

  /** What a layer's search finds, and what is selected from it, can be linked at that layer. */
  lemma FoundOn(metric: Metric, g: Graph, config: Config, id: NodeId, vector: Vector, entries: seq<NodeId>, ef: nat,
                layer: nat, maxConn: nat, log: LayerLog)
    requires Ready(g, config, id, layer) && EntriesOn(g, id, entries, layer)
    requires ConnectsAt(metric, g, id, vector, entries, ef, layer, maxConn, log)
    ensures EntriesOn(g, id, Ids(log.found), layer)
    ensures var ns := Ids(Chosen(View(metric, g, vector, layer), log.sel));
      Distinct(ns) && |ns| <= maxConn && (maxConn >= 1 ==> ns != []) && forall n :: n in ns ==> n in Ids(log.found)
  {
    var v := View(metric, g, vector, layer);
    SearchFindsOn(v, config, id, entries, ef, log.trail, log.found);
    SelectedFromFound(v, log.found, maxConn, log.sel);
  }

  lemma SearchFindsOn(v: View, config: Config, id: NodeId, entries: seq<NodeId>, ef: nat, trail: Trail<NodeId>,
                      found: seq<Item>)
    requires Ready(v.graph, config, id, v.layer) && EntriesOn(v.graph, id, entries, v.layer)
    requires var starts := v.Starts(entries); v.Explores(starts, Max(ef, |starts|), trail, ToSet(Ids(found)))
    ensures EntriesOn(v.graph, id, Ids(found), v.layer) && found != []
    ensures forall x :: x in Ids(found) ==> 0 <= x < |v.graph|
  {
    var starts, all := v.Starts(entries), ToSet(Ids(found));
    assert entries[0] in entries;
    SubsetSize({entries[0]}, starts);
    FindsOn(v, config, id, v.layer, starts, Max(ef, |starts|), trail, all);
    v.NeverWorseThanStart(starts, Max(ef, |starts|), trail, all, entries[0]);
    var f := PickOne(all);
    assert f in Ids(found);
    forall e | e in Ids(found) ensures LinkTarget(v.graph, id, e, v.layer) {
      assert e in all;
    }
  }

  lemma SelectedFromFound(v: View, found: seq<Item>, maxConn: nat, sel: Selection)
    requires found != [] && Selects(v, PoolOf(found), maxConn, true, sel)
    requires forall x :: x in Ids(found) ==> 0 <= x < |v.graph|
    ensures var ns := Ids(Chosen(v, sel));
      Distinct(ns) && |ns| <= maxConn && (maxConn >= 1 ==> ns != []) && forall n :: n in ns ==> n in Ids(found)
  {
    var pool, ns := PoolOf(found), Ids(Chosen(v, sel));
    PoolHasOneEach(found, |found|);
    SelectionIsSound(v, pool, maxConn, true, sel);
    SelectionFills(v, pool, maxConn, sel);
    forall n | n in ns ensures n in Ids(found) {
      var k :| 0 <= k < |ns| && ns[k] == n;
      assert Chosen(v, sel)[k] in pool;
      PoolIdsAreFound(found, Chosen(v, sel)[k]);
    }
    assert HasId(pool, found[0].id);
    var x :| x in pool && x.id == found[0].id;
    PoolIdsAreFound(found, x);
    SubsetSize({x}, Usable(v, pool));
  }

  lemma ConnectsAtKeeps(metric: Metric, g: Graph, config: Config, id: NodeId, vector: Vector, entries: seq<NodeId>,
                        layer: nat, log: LayerLog)
    requires Ready(g, config, id, layer) && EntriesOn(g, id, entries, layer)
    requires ConnectsAt(metric, g, id, vector, entries, config.efConstruction, layer, config.MaxConn(layer), log)
    ensures SameNodes(g, log.after) && GraphOk(log.after, config) && Fresh(log.after, id, layer)
    ensures EntriesOn(log.after, id, Ids(log.found), layer)
  {
    FoundOn(metric, g, config, id, vector, entries, config.efConstruction, layer, config.MaxConn(layer), log);
    var ns := Ids(Chosen(View(metric, g, vector, layer), log.sel));
    assert ns[..0] == [];
    LinksAllKeep(metric, g, config, id, ns, layer, log.graphs);
  }

  /** With the layers from `low` upwards done: well formed, and ready for the layer below, if there is one. */
  ghost predicate Standing(g: Graph, g': Graph, config: Config, id: NodeId, entries: seq<NodeId>, low: nat) {
    && SameNodes(g, g') && GraphOk(g', config)
    && (low > 0 ==> Ready(g', config, id, low - 1) && EntriesOn(g', id, entries, low - 1))
  }

  lemma NextLayer(metric: Metric, g: Graph, g1: Graph, config: Config, id: NodeId, vector: Vector,
                  entries: seq<NodeId>, layer: nat, log: LayerLog)
    requires Standing(g, g1, config, id, entries, layer + 1)
    requires ConnectsAt(metric, g1, id, vector, entries, config.efConstruction, layer, config.MaxConn(layer), log)
    ensures Standing(g, log.after, config, id, Ids(log.found), layer)
  {
    ConnectsAtKeeps(metric, g1, config, id, vector, entries, layer, log);
    if layer > 0 {
      forall e | e in Ids(log.found) ensures LinkTarget(log.after, id, e, layer - 1) {
        assert LinkTarget(log.after, id, e, layer);
      }
    }
  }

  /** Phase 2 keeps the graph well formed. */
  lemma ConnectsKeeps(metric: Metric, config: Config, g: Graph, id: NodeId, vector: Vector, entries: seq<NodeId>,
                      top: nat, low: nat, logs: Trail<LayerLog>)
    requires low <= top + 1 && Standing(g, g, config, id, entries, top + 1)
    requires Rounds(Connecting(metric, config, id, vector), g, entries, top, low, logs)
    ensures Standing(g, After(g, logs), config, id, Entries(entries, logs), low)
  {
    var round := Connecting(metric, config, id, vector);
    var keeps := (g1, es, layer) => layer >= 0 && Standing(g, g1, config, id, es, layer);
    forall g1, es, layer, log | keeps(g1, es, layer + 1) && round(g1, es, layer, log)
      ensures keeps(log.after, Ids(log.found), layer)
    {
      NextLayer(metric, g, g1, config, id, vector, es, layer, log);
    }
    RoundsKeep(round, keeps, g, entries, top, low, logs);
  }

  // ---------- whole operations ----------

  lemma RegisteredAt(g: Graph, v: Vertex, i: NodeId, l: nat)
    requires forall k: nat :: k < |v.links| ==> v.links[k] == []
    ensures LinksAt(g + [v], i, l) == if 0 <= i < |g| then LinksAt(g, i, l) else []
  {
  }

  /** A node just registered has no links at all. */
  lemma RegisteredIsFresh(s: State, key: string, vector: Vector, metadata: Metadata, level: nat)
    requires WellFormed(s)
    ensures var g := Registered(s, key, vector, metadata, level).graph;
      && |g| == |s.graph| + 1 && GraphOk(g, s.config)
      && forall l: nat :: Fresh(g, |s.graph|, l)
  {
    var g, id := Registered(s, key, vector, metadata, level).graph, |s.graph|;
    forall i, l: nat
      ensures ListOk(g, i, l, LinksAt(g, i, l)) && |LinksAt(g, i, l)| <= s.config.MaxConn(l)
      ensures id !in LinksAt(g, i, l) && (i == id ==> LinksAt(g, i, l) == [])
    {
      RegisteredAt(s.graph, g[id], i, l);
      assert ListOk(s.graph, i, l, LinksAt(s.graph, i, l));
    }
  }

  /** Phase 2 of a non-faulting Insert starts at a node that exists at its first layer. */
  lemma StartsOn(metric: Metric, s: State, key: string, vector: Vector, metadata: Metadata, level: nat,
                 hops: Trail<Hop>)
    requires WellFormed(s) && key !in s.idMap && s.graph != [] && !Faults(s, key, level)
    requires Locates(metric, s, Registered(s, key, vector, metadata, level).graph, vector, level, hops)
    ensures var g, top := Registered(s, key, vector, metadata, level).graph, Min(level, s.maxLayer);
      && LinkTarget(g, |s.graph|, Reach(s.entryPoint, hops), top)
      && Standing(g, g, s.config, |s.graph|, [Reach(s.entryPoint, hops)], top + 1)
  {
    hide GraphOk, KeysOk, Fresh, Descends;
    var g, top := Registered(s, key, vector, metadata, level).graph, Min(level, s.maxLayer);
    RegisteredIsFresh(s, key, vector, metadata, level);
    assert g[s.entryPoint] == s.graph[s.entryPoint];
    DescentLands(metric, g, s.config, vector, |s.graph|, top, s.entryPoint, s.maxLayer, level + 1, hops);
  }

  lemma KeysAfterRegister(s: State, key: string, vector: Vector, metadata: Metadata, level: nat, g': Graph)
    requires KeysOk(s) && key !in s.idMap && SameNodes(Registered(s, key, vector, metadata, level).graph, g')
    ensures KeysOk(Registered(s, key, vector, metadata, level).(graph := g'))
  {
    var r := Registered(s, key, vector, metadata, level);
    forall i | 0 <= i < |s.graph| ensures g'[i].deleted == s.graph[i].deleted {
      assert r.graph[i] == s.graph[i];
    }
    assert !r.graph[|s.graph|].deleted && !g'[|s.graph|].deleted;
  }

  lemma SameLinksKeepOk(g: Graph, g': Graph, config: Config)
    requires GraphOk(g, config) && |g'| == |g| && forall i :: 0 <= i < |g| ==> g'[i].links == g[i].links
    ensures GraphOk(g', config)
  {
    forall i, l: nat
      ensures ListOk(g', i, l, LinksAt(g', i, l)) && |LinksAt(g', i, l)| <= config.MaxConn(l)
    {
      assert LinksAt(g', i, l) == LinksAt(g, i, l);
      assert ListOk(g, i, l, LinksAt(g, i, l));
    }
  }

  /** What linking makes of a registered node, well formed. */
  lemma LinkedIsWellFormed(s: State, key: string, vector: Vector, metadata: Metadata, level: nat, g': Graph)
    requires WellFormed(s) && key !in s.idMap && s.graph != []
    requires var r := Registered(s, key, vector, metadata, level); SameNodes(r.graph, g') && GraphOk(g', s.config)
    ensures var linked := Registered(s, key, vector, metadata, level).(graph := g');
      && (level <= s.maxLayer ==> WellFormed(linked) && (EntryOnTop(s) ==> EntryOnTop(linked)))
      && (level > s.maxLayer ==>
            WellFormed(linked.(entryPoint := |s.graph|, maxLayer := level))
            && EntryOnTop(linked.(entryPoint := |s.graph|, maxLayer := level)))
  {
    var r := Registered(s, key, vector, metadata, level);
    KeysAfterRegister(s, key, vector, metadata, level, g');
    forall i | 0 <= i < |g'| ensures g'[i].Level() == if i == |s.graph| then level else s.graph[i].Level() {
      assert |g'[i].links| == |r.graph[i].links|;
    }
  }

  /** Overwriting the vector and metadata of a node. */
  lemma UpdateKeepsWellFormed(s: State, id: NodeId, vector: Vector, metadata: Metadata)
    requires WellFormed(s) && 0 <= id < |s.graph|
    ensures var s' := s.(graph := s.graph[id := s.graph[id].(vector := vector, metadata := metadata)]);
      WellFormed(s') && (EntryOnTop(s) ==> EntryOnTop(s'))
  {
    SameLinksKeepOk(s.graph, s.graph[id := s.graph[id].(vector := vector, metadata := metadata)], s.config);
  }

  lemma FirstIsWellFormed(s: State, key: string, vector: Vector, metadata: Metadata, level: nat)
    requires WellFormed(s) && key !in s.idMap && s.graph == []
    ensures var s' := Registered(s, key, vector, metadata, level).(entryPoint := 0, maxLayer := level);
      WellFormed(s') && EntryOnTop(s')
  {
    RegisteredIsFresh(s, key, vector, metadata, level);
    KeysAfterRegister(s, key, vector, metadata, level, Registered(s, key, vector, metadata, level).graph);
  }

  /** Insert keeps the index well formed, and the entry point on the highest layer. */
  lemma InsertKeepsWellFormed(metric: Metric, s: State, key: string, vector: Vector, metadata: Metadata, level: nat,
                              log: InsertLog, s': State)
    requires WellFormed(s) && !Faults(s, key, level)
    requires Inserts(metric, s, key, vector, metadata, level, log, s')
    ensures WellFormed(s')
    ensures EntryOnTop(s) ==> EntryOnTop(s')
  {
    var id, r := |s.graph|, Registered(s, key, vector, metadata, level);
    if key in s.idMap {
      UpdateKeepsWellFormed(s, s.idMap[key], vector, metadata);
    } else {
      if s.graph == [] {
        FirstIsWellFormed(s, key, vector, metadata, level);
      } else {
        StartsOn(metric, s, key, vector, metadata, level, log.hops);
        ConnectsKeeps(metric, s.config, r.graph, id, vector, [Reach(s.entryPoint, log.hops)], Min(level, s.maxLayer), 0,
                      log.layers);
        LinkedIsWellFormed(s, key, vector, metadata, level, After(r.graph, log.layers));
      }
    }
  }

  lemma {:induction false} ElectedInRange(g: Graph, keys: seq<string>, i: nat)
    requires |keys| == |g|
    ensures Elected(g, keys, i) == 0 || (i <= Elected(g, keys, i) < |g| && !g[Elected(g, keys, i)].deleted)
    decreases |g| - i
  {
    if i < |g| && !(keys[i] != "" && !g[i].deleted) {
      ElectedInRange(g, keys, i + 1);
    }
  }

  /** Delete keeps the index well formed. */
  lemma DeleteKeepsWellFormed(s: State, key: string)
    requires WellFormed(s)
    ensures WellFormed(Deleted(s, key))
  {
    var s' := Deleted(s, key);
    if key in s.idMap {
      var id := s.idMap[key];
      ElectedInRange(s'.graph, s.reverseMap, 0);
      SameLinksKeepOk(s.graph, s'.graph, s.config);
    }
  }
}
