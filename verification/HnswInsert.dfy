/** Insert and pruneNeighbor of search.go. */
module HnswInsert {
  import opened Sets
  import opened Heaps
  import opened HnswGraph
  import opened HnswIndex
  import opened HnswSearchLayer
  import opened HnswNeighbors
  import opened HnswSpec
  import opened HnswInvariant
  import opened HnswSelection
  import opened HnswWoven

  ghost function StateOf(idx: Index): State
    reads idx, idx.nodes
  {
    State(Config(idx.M, idx.Mmax0, idx.EfConstruction), idx.Ef, idx.Graph(), idx.idMap, idx.reverseMap,
          idx.entryPoint, idx.currentMaxLayer)
  }

  /** Replaces one link list of one node. */
  method Relink(idx: Index, node: Node, layer: nat, links: seq<NodeId>)
    requires Member(idx, node) && layer < |node.Links|
    modifies node`Links
    ensures idx.Graph() == SetLinks(old(idx.Graph()), node.ID, layer, links)
  {
    node.SetLinks(layer, links);
    forall j | 0 <= j < |idx.nodes| && j != node.ID ensures idx.nodes[j].Value() == old(idx.nodes[j].Value()) {
      assert idx.nodes[j].ID != node.ID;
    }
  }

  ghost predicate Member(idx: Index, node: Node)
    reads idx
  {
    idx.Valid() && 0 <= node.ID < |idx.nodes| && idx.nodes[node.ID] == node
  }

  /** The links of a node with their distances from it. */
  method LinkDistances(idx: Index, vector: Vector, layer: nat, links: seq<NodeId>) returns (items: seq<Item>)
    ensures items == LinkItems(View(idx.metric, idx.Graph(), vector, layer), links, |links|)
  {
    ghost var v := View(idx.metric, idx.Graph(), vector, layer);
    items := [];
    for k := 0 to |links|
      invariant items == LinkItems(v, links, k)
    {
      if 0 <= links[k] < |idx.nodes| {
        items := items + [Item(links[k], idx.metric(vector, idx.nodes[links[k]].Vector))];
      }
    }
  }

  method PruneNeighbor(idx: Index, node: Node, currentLinks: seq<NodeId>, maxConn: nat, layer: nat)
    requires Member(idx, node) && layer < |node.Links| && currentLinks == node.Links[layer]
    modifies node`Links
    ensures Prunes(idx.metric, old(idx.Graph()), node.ID, layer, maxConn, idx.Graph())
    ensures layer < |node.Links| && var g := old(idx.Graph());
      Choice(View(idx.metric, g, node.Vector, layer), InGraph(g, currentLinks), maxConn, node.Links[layer])
  {
    ghost var g := idx.Graph();
    assert g[node.ID] == node.Value();
    ghost var v := View(idx.metric, idx.Graph(), node.Vector, layer);
    var nItems := LinkDistances(idx, node.Vector, layer, currentLinks);
    var pruned;
    ghost var sel;
    pruned, sel := SelectNeighborsHeuristic(idx, node.Vector, nItems, maxConn, layer, true);
    assert Selects(v, PoolOf(LinkItems(v, currentLinks, |currentLinks|)), maxConn, true, sel);
    Relink(idx, node, layer, pruned);
    ghost var list := PruneChooses(idx.metric, g, node.ID, layer, maxConn, idx.Graph());
    assert idx.Graph()[node.ID] == node.Value();
  }

  /** Links the new node and one neighbour both ways, and prunes the neighbour.
      Reports false where indexing the neighbour's link lists would be out of range. */
  method LinkPair(idx: Index, node: Node, n: NodeId, layer: nat, maxConn: nat) returns (ok: bool)
    requires Member(idx, node) && layer < |node.Links|
    modifies idx.nodes`Links
    ensures ok <==> n == node.ID || !(0 <= n < |idx.nodes|) || layer < |old(idx.Graph())[n].links|
    ensures ok ==> Links(idx.metric, old(idx.Graph()), node.ID, n, layer, maxConn, idx.Graph())
    ensures ok && n != node.ID && 0 <= n < |idx.nodes| ==>
      Paired(idx.metric, old(idx.Graph()), node.ID, n, layer, maxConn, idx.Graph())
    ensures !ok ==> idx.Graph() == Append(old(idx.Graph()), node.ID, layer, n)
  {
    ghost var g := idx.Graph();
    assert g[node.ID] == node.Value();
    if n == node.ID || !(0 <= n < |idx.nodes|) {
      return true;
    }
    var nNode := idx.nodes[n];
    Relink(idx, node, layer, node.Links[layer] + [n]);
    if layer >= |nNode.Links| {
      return false;
    }
    var nLinks := nNode.Links[layer] + [node.ID];
    Relink(idx, nNode, layer, nLinks);
    if |nLinks| > maxConn {
      PruneNeighbor(idx, nNode, nLinks, maxConn, layer);
    }
    LinksPair(idx.metric, g, node.ID, n, layer, maxConn, idx.Graph());
    return true;
  }

  /** Empties the found set: furthest first. */
  method Drain(found: Heap<Item>, ghost v: View, ghost kept: set<NodeId>) returns (items: seq<Item>)
    requires Holds(found, Further, v, kept)
    modifies found`items
    ensures Drains(v, kept, items)
  {
    items := [];
    ghost var left := kept;
    while |found.items| > 0
      invariant Holds(found, Further, v, left) && left <= kept
      invariant Drains(v, kept - left, items)
      invariant forall k, x :: 0 <= k < |items| && x in left ==> v.Dist(x) <= items[k].dist
      decreases |found.items|
    {
      var item := PopNode(found, v, left);
      DrainsOneMore(v, kept, left, items, item);
      items, left := items + [item], left - {item.id};
    }
    assert left == {} && kept - left == kept;
  }

  lemma DrainsOneMore(v: View, kept: set<NodeId>, left: set<NodeId>, items: seq<Item>, item: Item)
    requires left <= kept && Drains(v, kept - left, items)
    requires forall k, x :: 0 <= k < |items| && x in left ==> v.Dist(x) <= items[k].dist
    requires v.Furthest(item.id, left) && item.dist == v.Dist(item.id)
    ensures Drains(v, kept - (left - {item.id}), items + [item])
  {
    var items' := items + [item];
    IdsConcat(items, [item]);
    ToSetGrows(Ids(items), item.id);
    assert Ids(items') == Ids(items) + [item.id];
    assert item.id !in ToSet(Ids(items));
    assert kept - (left - {item.id}) == (kept - left) + {item.id};
  }

  /** One hop of the descent. */
  method HopFrom(idx: Index, query: Vector, cur: NodeId, layer: nat)
    returns (next: NodeId, ghost trail: Trail<NodeId>)
    requires idx.Valid() && 0 <= cur < |idx.nodes|
    ensures View(idx.metric, idx.Graph(), query, layer).Explores({cur}, 1, trail, {next})
    ensures 0 <= next < |idx.nodes|
  {
    hide View.Explores, Extreme;
    ghost var v := View(idx.metric, idx.Graph(), query, layer);
    var found;
    ghost var kept;
    found, trail, kept := SearchLayer(idx, query, [cur], 1, layer);
    assert v.Starts([cur]) == {cur};
    OneFound(v, cur, trail, kept);
    var nearest := PopNode(found, v, kept);
    next := nearest.id;
    assert kept == {next};
  }

  /** The relation allows every greedy hop in this index. */
  ghost predicate Allows(hopping: Hopping, idx: Index, query: Vector)
    reads idx, idx.nodes
    requires idx.Valid()
  {
    forall from: NodeId, layer: nat, hop: Hop {:trigger hopping(from, layer, hop)} ::
      View(idx.metric, idx.Graph(), query, layer).Explores({from}, 1, hop.trail, {hop.node}) ==>
        hopping(from, layer, hop)
  }

  /** The next hop down, from the node reached so far. */
  method HopDown(idx: Index, query: Vector, ghost hopping: Hopping, layer: nat, cur: NodeId)
    returns (next: NodeId, ghost hop: Hop)
    requires idx.Valid() && 0 <= cur < |idx.nodes| && Allows(hopping, idx, query)
    ensures hopping(cur, layer, hop) && hop.node == next && 0 <= next < |idx.nodes|
  {
    ghost var trail;
    next, trail := HopFrom(idx, query, cur, layer);
    hop := Hop(trail, next);
  }

  /** Greedy descent from the entry point over the layers from `top` down to `low`. */
  method Descend(idx: Index, query: Vector, ghost hopping: Hopping, ep: NodeId, top: nat, low: nat)
    returns (cur: NodeId, ghost hops: Trail<Hop>)
    requires idx.Valid() && 0 <= ep < |idx.nodes| && Allows(hopping, idx, query)
    ensures Descends(hopping, ep, top, low, hops) && cur == Reach(ep, hops)
    ensures 0 <= cur < |idx.nodes|
  {
    cur, hops := ep, Start;
    var above := Max(top + 1, low);
    while above > low
      invariant low <= above && (above <= top + 1 || above == low)
      invariant Descends(hopping, ep, top, above, hops) && cur == Reach(ep, hops)
      invariant 0 <= cur < |idx.nodes|
    {
      ghost var hop;
      cur, hop := HopDown(idx, query, hopping, above - 1, cur);
      hops := Then(hops, hop);
      above := above - 1;
    }
  }

  lemma OneFound(v: View, cur: NodeId, trail: Trail<NodeId>, kept: set<NodeId>)
    requires 0 <= cur < |v.graph| && v.Explores({cur}, 1, trail, kept)
    ensures |kept| == 1 && v.InRange(kept)
  {
    v.SeenHolds({cur}, trail, cur);
    SubsetSize({cur}, v.Seen({cur}, trail));
  }

  /** One round of the linking loop. */
  method LinkNext(idx: Index, node: Node, ns: seq<NodeId>, k: nat, layer: nat, maxConn: nat, ghost g: Graph,
                  ghost graphs0: Trail<Graph>)
    returns (ok: bool, ghost graphs: Trail<Graph>)
    requires Member(idx, node) && layer < |node.Links| && k < |ns|
    requires SameNodes(g, Now(g, graphs0)) && idx.Graph() == Now(g, graphs0)
    requires Steps(Linking(idx.metric, node.ID, ns, layer, maxConn), g, k, graphs0)
    modifies idx.nodes`Links
    ensures ok <==> ns[k] == node.ID || !(0 <= ns[k] < |g|) || layer < |g[ns[k]].links|
    ensures ok ==> SameNodes(g, Now(g, graphs)) && idx.Graph() == Now(g, graphs)
    ensures ok ==> Steps(Linking(idx.metric, node.ID, ns, layer, maxConn), g, k + 1, graphs)
    ensures |node.Links| == old(|node.Links|)
    ensures !ok ==> idx.Graph() == Append(Now(g, graphs0), node.ID, layer, ns[k])
  {
    ghost var before := idx.Graph();
    assert before[node.ID] == node.Value();
    ok := LinkPair(idx, node, ns[k], layer, maxConn);
    ghost var after := idx.Graph();
    assert after[node.ID] == node.Value();
    graphs := Then(graphs0, after);
    if ok {
      LinksSameNodes(idx.metric, before, node.ID, ns[k], layer, maxConn, after);
      assert Linking(idx.metric, node.ID, ns, layer, maxConn)(before, k, after);
    }
  }

  ghost predicate AllFit(g: Graph, id: NodeId, ns: seq<NodeId>, layer: nat) {
    forall n :: n in ns ==> LinkTarget(g, id, n, layer)
  }

  /** Links the new node to each of its chosen neighbours in turn, until an index is out of range. */
  method LinkNeighbors(idx: Index, node: Node, ns: seq<NodeId>, layer: nat, maxConn: nat, ghost g: Graph,
                       ghost fits: bool)
    returns (ok: bool, ghost graphs: Trail<Graph>)
    requires Member(idx, node) && layer < |node.Links| && g == idx.Graph()
    requires if fits then AllFit(g, node.ID, ns, layer) else Misses(g, node.ID, ns, layer)
    modifies idx.nodes`Links
    ensures ok == fits && |node.Links| == old(|node.Links|)
    ensures ok ==>
      Steps(Linking(idx.metric, node.ID, ns, layer, maxConn), g, |ns|, graphs) && idx.Graph() == Now(g, graphs)
    ensures !ok ==> idx.Graph() == Append(g, node.ID, layer, ns[0])
  {
    graphs, ok := Start, true;
    for k := 0 to |ns|
      invariant SameNodes(g, Now(g, graphs)) && idx.Graph() == Now(g, graphs) && layer < |node.Links|
      invariant Steps(Linking(idx.metric, node.ID, ns, layer, maxConn), g, k, graphs)
      invariant |node.Links| == old(|node.Links|) && (k > 0 ==> fits)
    {
      Fits(g, node.ID, ns, k, layer, fits);
      ok, graphs := LinkNext(idx, node, ns, k, layer, maxConn, g, graphs);
      if !ok {
        return;
      }
    }
  }

  lemma Fits(g: Graph, id: NodeId, ns: seq<NodeId>, k: nat, layer: nat, fits: bool)
    requires k < |ns| && if fits then AllFit(g, id, ns, layer) else Misses(g, id, ns, layer)
    ensures fits <==> ns[k] == id || !(0 <= ns[k] < |g|) || layer < |g[ns[k]].links|
    ensures !fits ==> k == 0 && |ns| == 1
  {
    assert ns[k] in ns;
  }

  /** The only neighbour chosen does not exist at the layer. */
  ghost predicate Misses(g: Graph, id: NodeId, ns: seq<NodeId>, layer: nat) {
    |ns| == 1 && ns[0] != id && 0 <= ns[0] < |g| && |g[ns[0]].links| <= layer
  }

  lemma LinksSameNodes(metric: Metric, g: Graph, id: NodeId, n: NodeId, layer: nat, maxConn: nat, g': Graph)
    requires Links(metric, g, id, n, layer, maxConn, g')
    ensures SameNodes(g, g')
  {
    if n != id && 0 <= n < |g| {
      var both := Append(Append(g, id, layer, n), n, layer, id);
      if |both[n].links[layer]| > maxConn {
        var list := PruneKeepsSome(metric, both, n, layer, maxConn, g');
      }
    }
  }

  ghost function ConfigOf(idx: Index): Config {
    Config(idx.M, idx.Mmax0, idx.EfConstruction)
  }

  /** The entry points of a round: all on the layer, or the single one that is below it. */
  ghost predicate Enters(g: Graph, config: Config, id: NodeId, entries: seq<NodeId>, layer: nat, fits: bool) {
    if fits then Ready(g, config, id, layer) && EntriesOn(g, id, entries, layer)
    else Misses(g, id, entries, layer) && config.MaxConn(layer) >= 1
  }

  lemma AllSame(s: seq<NodeId>, x: NodeId)
    requires Distinct(s) && s != [] && forall k :: 0 <= k < |s| ==> s[k] == x
    ensures |s| == 1
  {
    assert s[0] == s[|s| - 1];
  }

  /** What is selected at a layer fits it exactly when the entry points do. */
  lemma SelectionFits(v: View, config: Config, id: NodeId, entries: seq<NodeId>, fits: bool, trail: Trail<NodeId>,
                      found: seq<Item>, sel: Selection)
    requires Enters(v.graph, config, id, entries, v.layer, fits)
    requires var starts := v.Starts(entries);
      v.Explores(starts, Max(config.efConstruction, |starts|), trail, ToSet(Ids(found)))
    requires Distinct(Ids(found)) && Selects(v, PoolOf(found), config.MaxConn(v.layer), true, sel)
    ensures var ns := Ids(Chosen(v, sel));
      if fits then AllFit(v.graph, id, ns, v.layer) else Misses(v.graph, id, ns, v.layer) && ns == entries
  {
    hide View.Explores, Selects, Chosen, PoolOf, Ready, LinkTarget, EntriesOn;
    var ns := Ids(Chosen(v, sel));
    if fits {
      SearchFindsOn(v, config, id, entries, config.efConstruction, trail, found);
      SelectedFromFound(v, found, config.MaxConn(v.layer), sel);
    } else {
      var ep := entries[0];
      assert entries == [ep] && v.Starts(entries) == {ep};
      StuckAt(v, ep, Max(config.efConstruction, 1), trail, ToSet(Ids(found)));
      assert ep in ToSet(Ids(found));
      assert forall x :: x in Ids(found) ==> x in ToSet(Ids(found));
      SelectedFromFound(v, found, config.MaxConn(v.layer), sel);
      forall k | 0 <= k < |ns| ensures ns[k] == ep {
        assert ns[k] in ns;
      }
      AllSame(ns, ep);
    }
  }

  /** Searches the layer and selects neighbours among what it finds. */
  method FindNeighbors(idx: Index, vector: Vector, entries: seq<NodeId>, layer: nat, maxConn: nat)
    returns (foundItems: seq<Item>, neighbors: seq<NodeId>, ghost trail: Trail<NodeId>, ghost sel: Selection)
    requires idx.Valid()
    ensures var v := View(idx.metric, idx.Graph(), vector, layer);
      var starts, found := v.Starts(entries), ToSet(Ids(foundItems));
      v.Explores(starts, Max(idx.EfConstruction, |starts|), trail, found) && Drains(v, found, foundItems)
    ensures var v := View(idx.metric, idx.Graph(), vector, layer);
      Selects(v, PoolOf(foundItems), maxConn, true, sel) && neighbors == Ids(Chosen(v, sel))
  {
    hide Selects, Drains, Chosen, Distinct, Usable, PoolOf, View.Explores;
    ghost var v := View(idx.metric, idx.Graph(), vector, layer);
    var found;
    ghost var kept;
    found, trail, kept := SearchLayer(idx, vector, entries, idx.EfConstruction, layer);
    foundItems := Drain(found, v, kept);
    neighbors, sel := SelectNeighborsHeuristic(idx, vector, foundItems, maxConn, layer, true);
  }

  /** One round of phase 2: search the layer, select neighbours, link. */
  method ConnectLayer(idx: Index, node: Node, vector: Vector, entries0: seq<NodeId>, layer: nat, ghost g: Graph,
                      ghost fits: bool)
    returns (ok: bool, entries: seq<NodeId>, ghost log: LayerLog)
    requires Member(idx, node) && layer < |node.Links| && g == idx.Graph()
    requires Enters(g, ConfigOf(idx), node.ID, entries0, layer, fits)
    modifies idx.nodes`Links
    ensures ok == fits && |node.Links| == old(|node.Links|)
    ensures ok ==> idx.Graph() == log.after && entries == Ids(log.found)
    ensures ok ==>
      ConnectsAt(idx.metric, g, node.ID, vector, entries0, idx.EfConstruction, layer, ConfigOf(idx).MaxConn(layer), log)
    ensures !ok ==> idx.Graph() == Append(g, node.ID, layer, entries0[0])
  {
    ghost var v := View(idx.metric, g, vector, layer);
    var maxConn := if layer == 0 then idx.Mmax0 else idx.M;
    var foundItems, neighbors;
    ghost var trail, sel, graphs;
    foundItems, neighbors, trail, sel := FindNeighbors(idx, vector, entries0, layer, maxConn);
    SelectionFits(v, ConfigOf(idx), node.ID, entries0, fits, trail, foundItems, sel);
    ok, graphs := LinkNeighbors(idx, node, neighbors, layer, maxConn, g, fits);
    entries := seq(|foundItems|, i requires 0 <= i < |foundItems| => foundItems[i].id);
    log := LayerLog(trail, foundItems, sel, graphs, Now(g, graphs));
  }

  /** Phase 2 with the layers above `low` done. */
  ghost predicate Connected(idx: Index, node: Node, vector: Vector, start: NodeId, top: nat, low: nat, g: Graph,
                            fits: bool, logs: Trail<LayerLog>)
    reads idx, idx.nodes
  {
    && low <= top + 1 && idx.Graph() == After(g, logs)
    && Rounds(Connecting(idx.metric, ConfigOf(idx), node.ID, vector), g, [start], top, low, logs)
    && if fits then Standing(g, After(g, logs), ConfigOf(idx), node.ID, Entries([start], logs), low)
       else low == top + 1 && logs == Start && Enters(g, ConfigOf(idx), node.ID, [start], top, false)
  }

  lemma ConnectsIsRound(metric: Metric, config: Config, id: NodeId, vector: Vector, g: Graph, entries: seq<NodeId>,
                        top: nat, low: nat, logs: Trail<LayerLog>, log: LayerLog)
    requires low <= top && Rounds(Connecting(metric, config, id, vector), g, entries, top, low + 1, logs)
    requires ConnectsAt(metric, After(g, logs), id, vector, Entries(entries, logs), config.efConstruction, low,
                        config.MaxConn(low), log)
    ensures Rounds(Connecting(metric, config, id, vector), g, entries, top, low, Then(logs, log))
  {
    assert Connecting(metric, config, id, vector)(After(g, logs), Entries(entries, logs), low, log);
  }

  /** One layer of phase 2. */
  method ConnectNext(idx: Index, node: Node, vector: Vector, currentEP: seq<NodeId>, lc: nat, ghost start: NodeId,
                     ghost top: nat, ghost g: Graph, ghost fits: bool, ghost logs0: Trail<LayerLog>)
    returns (ok: bool, nextEP: seq<NodeId>, ghost logs: Trail<LayerLog>)
    requires Member(idx, node) && lc < |node.Links|
    requires Connected(idx, node, vector, start, top, lc + 1, g, fits, logs0) && currentEP == Entries([start], logs0)
    modifies idx.nodes`Links
    ensures ok == fits && |node.Links| == old(|node.Links|)
    ensures ok ==> Connected(idx, node, vector, start, top, lc, g, fits, logs) && nextEP == Entries([start], logs)
    ensures !ok ==> idx.Graph() == Append(g, node.ID, top, start)
  {
    ghost var before, log := idx.Graph(), *;
    ok, nextEP, log := ConnectLayer(idx, node, vector, currentEP, lc, before, fits);
    logs := Then(logs0, log);
    if ok {
      ConnectsIsRound(idx.metric, ConfigOf(idx), node.ID, vector, g, [start], top, lc, logs0, log);
      NextLayer(idx.metric, g, before, ConfigOf(idx), node.ID, vector, currentEP, lc, log);
    }
  }

  /** All of phase 2, from layer `top` down to the ground layer. */
  method ConnectAll(idx: Index, node: Node, vector: Vector, start: NodeId, top: nat, ghost g: Graph, ghost fits: bool)
    returns (ok: bool, ghost logs: Trail<LayerLog>)
    requires Member(idx, node) && top < |node.Links|
    requires Connected(idx, node, vector, start, top, top + 1, g, fits, Start)
    modifies idx.nodes`Links
    ensures ok == fits
    ensures ok ==> idx.Graph() == After(g, logs)
    ensures ok ==> Rounds(Connecting(idx.metric, ConfigOf(idx), node.ID, vector), g, [start], top, 0, logs)
    ensures !ok ==> idx.Graph() == Append(g, node.ID, top, start)
  {
    hide Rounds, Standing, Enters;
    var currentEP, lc := [start], top as int;
    logs, ok := Start, true;
    while lc >= 0
      invariant -1 <= lc <= top && top < |node.Links| && (lc < top ==> fits)
      invariant Connected(idx, node, vector, start, top, lc + 1, g, fits, logs) && currentEP == Entries([start], logs)
    {
      ok, currentEP, logs := ConnectNext(idx, node, vector, currentEP, lc, start, top, g, fits, logs);
      if !ok {
        return;
      }
      lc := lc - 1;
    }
  }

  /** Enters the new node in the node list and the key maps. */
  method Register(idx: Index, key: string, vector: Vector, metadata: Metadata, level: nat) returns (node: Node)
    requires idx.Valid()
    modifies idx`nodes, idx`idMap, idx`reverseMap
    ensures fresh(node) && Member(idx, node) && idx.nodes == old(idx.nodes) + [node]
    ensures StateOf(idx) == Registered(old(StateOf(idx)), key, vector, metadata, level)
  {
    ghost var g := idx.Graph();
    var internalID := |idx.nodes|;
    node := new Node(internalID, vector, metadata, level);
    idx.nodes := idx.nodes + [node];
    idx.idMap := idx.idMap[key := internalID];
    idx.reverseMap := idx.reverseMap + [key];
    forall i | 0 <= i < |g| ensures idx.nodes[i].Value() == g[i] {}
    assert idx.Graph() == g + [node.Value()];
  }

  /** The run-time panic of an out-of-range index, made a result. */
  datatype Outcome = Stored | OutOfRange

  method Replace(idx: Index, id: NodeId, vector: Vector, metadata: Metadata)
    requires idx.Valid() && 0 <= id < |idx.nodes|
    modifies idx.nodes`Vector, idx.nodes`Metadata
    ensures idx.Graph() == old(idx.Graph())[id := old(idx.Graph())[id].(vector := vector, metadata := metadata)]
  {
    var node := idx.nodes[id];
    ghost var g := idx.Graph();
    assert g[id] == node.Value();
    node.Vector := vector;
    node.Metadata := metadata;
    forall j | 0 <= j < |g| && j != id ensures idx.nodes[j].Value() == g[j] {
      assert idx.nodes[j].ID != node.ID;
    }
    assert idx.Graph() == g[id := g[id].(vector := vector, metadata := metadata)];
  }

  /** A descent for an insert that will fault stays at the entry point. */
  lemma FaultStart(metric: Metric, s: State, g: Graph, vector: Vector, key: string, level: nat, hops: Trail<Hop>)
    requires Faults(s, key, level) && |g| == |s.graph| + 1 && g[s.entryPoint] == s.graph[s.entryPoint]
    requires Locates(metric, s, g, vector, level, hops)
    ensures Reach(s.entryPoint, hops) == s.entryPoint
    ensures Misses(g, |s.graph|, [s.entryPoint], Min(level, s.maxLayer))
  {
    DescentIsStuck(metric, g, vector, s.entryPoint, s.maxLayer, level + 1, hops);
  }

  /** Where phase 2 starts, and whether it will get through. */
  lemma StartOfPhase2(metric: Metric, s: State, key: string, vector: Vector, metadata: Metadata, level: nat,
                      hops: Trail<Hop>)
    requires WellFormed(s) && key !in s.idMap && s.graph != []
    requires Locates(metric, s, Registered(s, key, vector, metadata, level).graph, vector, level, hops)
    ensures var g, top, start := Registered(s, key, vector, metadata, level).graph, Min(level, s.maxLayer),
                                    Reach(s.entryPoint, hops);
      if Faults(s, key, level) then start == s.entryPoint && Enters(g, s.config, |s.graph|, [start], top, false)
      else Standing(g, g, s.config, |s.graph|, [start], top + 1)
  {
    if Faults(s, key, level) {
      FaultStart(metric, s, Registered(s, key, vector, metadata, level).graph, vector, key, level, hops);
    } else {
      StartsOn(metric, s, key, vector, metadata, level, hops);
    }
  }

  /** Phase 1 for a node just registered: where phase 2 starts. */
  method Approach(idx: Index, node: Node, vector: Vector, level: nat, ghost s: State, ghost key: string,
                  ghost metadata: Metadata)
    returns (start: NodeId, ghost hops: Trail<Hop>)
    requires WellFormed(s) && key !in s.idMap && s.graph != []
    requires Member(idx, node) && StateOf(idx) == Registered(s, key, vector, metadata, level) && node.ID == |s.graph|
    ensures Locates(idx.metric, s, idx.Graph(), vector, level, hops) && start == Reach(s.entryPoint, hops)
    ensures Faults(s, key, level) ==> start == s.entryPoint
    ensures var top := Min(level, s.maxLayer);
      Connected(idx, node, vector, start, top, top + 1, idx.Graph(), !Faults(s, key, level), Start)
  {
    start, hops := Descend(idx, vector, Greedy(idx.metric, idx.Graph(), vector), idx.entryPoint, idx.currentMaxLayer,
                           level + 1);
    StartOfPhase2(idx.metric, s, key, vector, metadata, level, hops);
  }

  /** Phases 1 and 2 for a node just registered. */
  method Connect(idx: Index, node: Node, vector: Vector, level: nat, ghost s: State, ghost key: string,
                 ghost metadata: Metadata)
    returns (ok: bool, ghost log: InsertLog)
    requires WellFormed(s) && key !in s.idMap && s.graph != []
    requires Member(idx, node) && StateOf(idx) == Registered(s, key, vector, metadata, level) && node.ID == |s.graph|
    modifies idx.nodes`Links
    ensures ok == !Faults(s, key, level)
    ensures var r, top := Registered(s, key, vector, metadata, level), Min(level, s.maxLayer);
      if ok then
        && Locates(idx.metric, s, r.graph, vector, level, log.hops)
        && Rounds(Connecting(idx.metric, s.config, node.ID, vector), r.graph, [Reach(s.entryPoint, log.hops)], top,
                  0, log.layers)
        && idx.Graph() == After(r.graph, log.layers)
      else idx.Graph() == Append(r.graph, node.ID, top, s.entryPoint)
  {
    hide WellFormed, Faults, Locates, Rounds, Reach, Connected, After;
    ghost var g := idx.Graph();
    assert g[node.ID] == node.Value();
    var L := idx.currentMaxLayer;
    var start;
    ghost var hops, logs;
    start, hops := Approach(idx, node, vector, level, s, key, metadata);
    var topInsertLayer := if L < level then L else level;
    ok, logs := ConnectAll(idx, node, vector, start, topInsertLayer, g, !Faults(s, key, level));
    log := InsertLog(hops, logs);
  }

  /** The state after the new node has been linked. */
  function Finished(s: State, r: State, g: Graph, level: nat): State {
    var linked := r.(graph := g);
    if level > s.maxLayer then linked.(entryPoint := |s.graph|, maxLayer := level) else linked
  }

  lemma FinishedIsInserted(metric: Metric, s: State, key: string, vector: Vector, metadata: Metadata, level: nat,
                           log: InsertLog)
    requires key !in s.idMap && s.graph != []
    requires var r, top := Registered(s, key, vector, metadata, level), Min(level, s.maxLayer);
      && Locates(metric, s, r.graph, vector, level, log.hops)
      && Rounds(Connecting(metric, s.config, |s.graph|, vector), r.graph, [Reach(s.entryPoint, log.hops)], top, 0,
                log.layers)
    ensures var r := Registered(s, key, vector, metadata, level);
      Inserts(metric, s, key, vector, metadata, level, log, Finished(s, r, After(r.graph, log.layers), level))
  {
  }

  /** Links a registered node and raises the entry point where it is now the highest. */
  method Finish(idx: Index, node: Node, key: string, vector: Vector, metadata: Metadata, level: nat, ghost s: State)
    returns (outcome: Outcome, ghost log: InsertLog)
    requires WellFormed(s) && key !in s.idMap && s.graph != []
    requires Member(idx, node) && StateOf(idx) == Registered(s, key, vector, metadata, level) && node.ID == |s.graph|
    modifies idx`entryPoint, idx`currentMaxLayer, idx.nodes`Links
    ensures outcome.OutOfRange? <==> Faults(s, key, level)
    ensures outcome.OutOfRange? ==> StateOf(idx) == Faulted(s, key, vector, metadata, level)
    ensures outcome.Stored? ==> Inserts(idx.metric, s, key, vector, metadata, level, log, StateOf(idx))
  {
    var L := idx.currentMaxLayer;
    var ok;
    ok, log := Connect(idx, node, vector, level, s, key, metadata);
    if !ok {
      return OutOfRange, log;
    }
    FinishedIsInserted(idx.metric, s, key, vector, metadata, level, log);
    ghost var g := idx.Graph();
    if level > L {
      idx.entryPoint, idx.currentMaxLayer := node.ID, level;
    }
    assert idx.Graph() == g;
    assert StateOf(idx) == Finished(s, Registered(s, key, vector, metadata, level), g, level);
    return Stored, log;
  }

  /** Insert of a key the index does not hold. */
  method InsertNew(idx: Index, key: string, vector: Vector, metadata: Metadata, level: nat, ghost s: State)
    returns (outcome: Outcome, ghost log: InsertLog)
    requires idx.Valid() && s == StateOf(idx) && WellFormed(s) && key !in idx.idMap
    modifies idx, idx.nodes
    ensures idx.Valid() && forall n :: n in idx.nodes ==> n in old(idx.nodes) || fresh(n)
    ensures outcome.OutOfRange? <==> Faults(s, key, level)
    ensures outcome.OutOfRange? ==> StateOf(idx) == Faulted(s, key, vector, metadata, level)
    ensures outcome.Stored? ==> Inserts(idx.metric, s, key, vector, metadata, level, log, StateOf(idx))
  {
    var node := Register(idx, key, vector, metadata, level);
    if |idx.nodes| == 1 {
      idx.entryPoint, idx.currentMaxLayer := node.ID, level;
      return Stored, InsertLog(Start, Start);
    }
    outcome, log := Finish(idx, node, key, vector, metadata, level, s);
  }

  method Insert(idx: Index, key: string, vector: Vector, metadata: Metadata, level: nat)
    returns (outcome: Outcome, ghost log: InsertLog)
    requires idx.Valid() && WellFormed(StateOf(idx)) && level <= MAX_LEVEL
    modifies idx, idx.nodes
    ensures idx.Valid() && forall n :: n in idx.nodes ==> n in old(idx.nodes) || fresh(n)
    ensures outcome.OutOfRange? <==> Faults(old(StateOf(idx)), key, level)
    ensures outcome.OutOfRange? ==> StateOf(idx) == Faulted(old(StateOf(idx)), key, vector, metadata, level)
    ensures outcome.Stored? ==>
      Inserts(idx.metric, old(StateOf(idx)), key, vector, metadata, level, log, StateOf(idx))
    ensures outcome.Stored? && key !in old(idx.idMap) ==>
      IsWoven(idx.metric, old(StateOf(idx)), key, vector, metadata, level, StateOf(idx))
  {
    hide IsWoven;
    ghost var s := StateOf(idx);
    if key in idx.idMap {
      Replace(idx, idx.idMap[key], vector, metadata);
      return Stored, InsertLog(Start, Start);
    }
    outcome, log := InsertNew(idx, key, vector, metadata, level, s);
    if outcome.Stored? {
      InsertWeaves(idx.metric, s, key, vector, metadata, level, log, StateOf(idx));
    }
  }
}
