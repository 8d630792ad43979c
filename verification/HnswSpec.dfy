/** The state of an HNSW index as a value, and what Insert, Delete and Search may do to it. */
module HnswSpec {
  import opened HnswGraph
  import opened HnswNeighbors

  /** Fixed when the index is built. */
  datatype Config = Config(m: nat, mmax0: nat, efConstruction: nat) {
    function MaxConn(layer: nat): nat {
      if layer == 0 then mmax0 else m
    }
  }

  datatype State = State(config: Config, ef: int, graph: Graph, idMap: map<string, NodeId>, reverseMap: seq<string>,
                         entryPoint: NodeId, maxLayer: nat)

  /** NewIndex. */
  function Empty(m: int, efConstruction: int): State {
    var m' := if m <= 0 then 16 else m;
    var efc := if efConstruction <= 0 then 200 else efConstruction;
    State(Config(m', 2 * m', efc), 100, [], map[], [], 0, 0)
  }

  function SetLinks(g: Graph, i: NodeId, layer: nat, links: seq<NodeId>): (r: Graph)
    requires 0 <= i < |g| && layer < |g[i].links|
  {
    g[i := g[i].(links := g[i].links[layer := links])]
  }

  function Append(g: Graph, i: NodeId, layer: nat, n: NodeId): Graph
    requires 0 <= i < |g| && layer < |g[i].links|
  {
    SetLinks(g, i, layer, g[i].links[layer] + [n])
  }

  /** The first n links of a node, as candidates for a new selection of its links. */
  function LinkItems(v: View, links: seq<NodeId>, n: nat): seq<Item>
    requires n <= |links|
  {
    if n == 0 then []
    else if 0 <= links[n - 1] < |v.graph| then LinkItems(v, links, n - 1) + [Item(links[n - 1], v.Dist(links[n - 1]))]
    else LinkItems(v, links, n - 1)
  }

  /** pruneNeighbor: node n re-selects among its own links. */
  ghost predicate Prunes(metric: Metric, g: Graph, n: NodeId, layer: nat, maxConn: nat, g': Graph) {
    && 0 <= n < |g| && layer < |g[n].links|
    && var v, links := View(metric, g, g[n].vector, layer), g[n].links[layer];
       exists sel ::
         && Selects(v, PoolOf(LinkItems(v, links, |links|)), maxConn, true, sel)
         && g' == SetLinks(g, n, layer, Ids(Chosen(v, sel)))
  }

  /** The new node `id` and its chosen neighbour n link to each other; n is pruned if it now has too many links. */
  ghost predicate Links(metric: Metric, g: Graph, id: NodeId, n: NodeId, layer: nat, maxConn: nat, g': Graph) {
    if n == id || !(0 <= n < |g|) then g' == g
    else
      && 0 <= id < |g| && layer < |g[id].links| && layer < |g[n].links|
      && var both := Append(Append(g, id, layer, n), n, layer, id);
         if |both[n].links[layer]| > maxConn then Prunes(metric, both, n, layer, maxConn, g') else g' == both
  }

  ghost function Now(g: Graph, graphs: Trail<Graph>): Graph {
    if graphs.Start? then g else graphs.last
  }

  /** What one step, the k-th, may do to a graph. */
  type LinkStep = (Graph, int, Graph) -> bool

  /** The graphs after each of the first k steps. */
  ghost predicate Steps(step: LinkStep, g: Graph, k: nat, graphs: Trail<Graph>) {
    if k == 0 then graphs.Start?
    else graphs.Then? && Steps(step, g, k - 1, graphs.before) && step(Now(g, graphs.before), k - 1, graphs.last)
  }

  /** Linking `id` to its neighbours `ns`, one by one. */
  ghost function Linking(metric: Metric, id: NodeId, ns: seq<NodeId>, layer: nat, maxConn: nat): LinkStep {
    (g, k, g') => 0 <= k < |ns| && Links(metric, g, id, ns[k], layer, maxConn, g')
  }

  /** Whatever each step carries to the next holds at the end. */
  lemma {:induction false} StepsKeep(step: LinkStep, keeps: (Graph, int) -> bool, g: Graph, k: nat,
                                     graphs: Trail<Graph>)
    requires Steps(step, g, k, graphs) && keeps(g, 0)
    requires forall g1, i, g2 {:trigger step(g1, i, g2)} :: 0 <= i < k && keeps(g1, i) && step(g1, i, g2) ==>
      keeps(g2, i + 1)
    ensures keeps(Now(g, graphs), k)
  {
    if k > 0 {
      StepsKeep(step, keeps, g, k - 1, graphs.before);
    }
  }

  /** What the insertion did at one layer. */
  datatype LayerLog = LayerLog(trail: Trail<NodeId>, found: seq<Item>, sel: Selection, graphs: Trail<Graph>,
                               after: Graph)

  /** `items` lists the nodes of `found` with their distances, furthest first. */
  ghost predicate Drains(v: View, found: set<NodeId>, items: seq<Item>) {
    && Distinct(Ids(items)) && ToSet(Ids(items)) == found
    && (forall k :: 0 <= k < |items| ==> items[k].dist == v.Dist(items[k].id))
    && (forall j, k :: 0 <= j < k < |items| ==> items[k].dist <= items[j].dist)
  }

  /** One round of phase 2 of Insert: search the layer, select neighbours, link. */
  ghost predicate ConnectsAt(metric: Metric, g: Graph, id: NodeId, vector: Vector, entries: seq<NodeId>, ef: nat,
                             layer: nat, maxConn: nat, log: LayerLog) {
    var v := View(metric, g, vector, layer);
    var starts, found, ns := v.Starts(entries), ToSet(Ids(log.found)), Ids(Chosen(v, log.sel));
    && v.Explores(starts, Max(ef, |starts|), log.trail, found)
    && Drains(v, found, log.found)
    && Selects(v, PoolOf(log.found), maxConn, true, log.sel)
    && Steps(Linking(metric, id, ns, layer, maxConn), g, |ns|, log.graphs)
    && log.after == Now(g, log.graphs)
  }

  ghost function After(g: Graph, logs: Trail<LayerLog>): Graph {
    if logs.Start? then g else logs.last.after
  }

  ghost function Entries(entries: seq<NodeId>, logs: Trail<LayerLog>): seq<NodeId> {
    if logs.Start? then entries else Ids(logs.last.found)
  }

  /** What one round may do to a graph, given the entry points for its layer. */
  type Round = (Graph, seq<NodeId>, int, LayerLog) -> bool

  /** Rounds for the layers from `top` down to `low`, each starting from what the one before found. */
  ghost predicate Rounds(round: Round, g: Graph, entries: seq<NodeId>, top: nat, low: nat, logs: Trail<LayerLog>)
    decreases top + 1 - low
  {
    if low > top then logs.Start?
    else
      && logs.Then?
      && Rounds(round, g, entries, top, low + 1, logs.before)
      && round(After(g, logs.before), Entries(entries, logs.before), low, logs.last)
  }

  /** The rounds of phase 2 of Insert. */
  ghost function Connecting(metric: Metric, config: Config, id: NodeId, vector: Vector): Round {
    (g, entries, layer, log) =>
      layer >= 0 && ConnectsAt(metric, g, id, vector, entries, config.efConstruction, layer, config.MaxConn(layer), log)
  }

  /** Whatever each round carries from its layer to the next holds at the end. */
  lemma {:induction false} RoundsKeep(round: Round, keeps: (Graph, seq<NodeId>, int) -> bool, g: Graph,
                                      entries: seq<NodeId>, top: nat, low: nat, logs: Trail<LayerLog>)
    requires Rounds(round, g, entries, top, low, logs) && low <= top + 1 && keeps(g, entries, top + 1)
    requires forall g1, es, layer, log {:trigger round(g1, es, layer, log)} ::
               keeps(g1, es, layer + 1) && round(g1, es, layer, log) ==> keeps(log.after, Ids(log.found), layer)
    ensures keeps(After(g, logs), Entries(entries, logs), low)
    decreases top + 1 - low
  {
    if low <= top {
      RoundsKeep(round, keeps, g, entries, top, low + 1, logs.before);
    }
  }

  /** One hop of the greedy descent: what the search expanded, and the node it kept. */
  datatype Hop = Hop(trail: Trail<NodeId>, node: NodeId)

  ghost function Reach(ep: NodeId, hops: Trail<Hop>): NodeId {
    if hops.Start? then ep else hops.last.node
  }

  /** What one hop may do, from a node, at a layer. */
  type Hopping = (NodeId, int, Hop) -> bool

  /** A search of the layer that keeps one node. */
  ghost function Greedy(metric: Metric, g: Graph, query: Vector): Hopping {
    (from: NodeId, layer: int, hop: Hop) =>
      layer >= 0 && View(metric, g, query, layer).Explores({from}, 1, hop.trail, {hop.node})
  }

  /** One hop at each layer from `top` down to `low`. */
  ghost predicate Descends(hopping: Hopping, ep: NodeId, top: nat, low: nat, hops: Trail<Hop>)
    decreases top + 1 - low
  {
    if low > top then hops.Start?
    else
      && hops.Then?
      && Descends(hopping, ep, top, low + 1, hops.before)
      && hopping(Reach(ep, hops.before), low, hops.last)
  }

  /** The new node in the maps and the node list, not yet linked. */
  function Registered(s: State, key: string, vector: Vector, metadata: Metadata, level: nat): State {
    var id := |s.graph|;
    s.(graph := s.graph + [Vertex(vector, metadata, seq(level + 1, _ => []), false)],
       idMap := s.idMap[key := id], reverseMap := s.reverseMap + [key])
  }

  datatype InsertLog = InsertLog(hops: Trail<Hop>, layers: Trail<LayerLog>)

  /** The node where phase 2 starts. */
  ghost predicate Locates(metric: Metric, s: State, g: Graph, vector: Vector, level: nat, hops: Trail<Hop>) {
    Descends(Greedy(metric, g, vector), s.entryPoint, s.maxLayer, level + 1, hops)
  }

  /** Insert, when no link list is indexed out of range. */
  ghost predicate Inserts(metric: Metric, s: State, key: string, vector: Vector, metadata: Metadata, level: nat,
                          log: InsertLog, s': State) {
    if key in s.idMap then
      && 0 <= s.idMap[key] < |s.graph|
      && var id := s.idMap[key];
         s' == s.(graph := s.graph[id := s.graph[id].(vector := vector, metadata := metadata)])
    else
      var id, r := |s.graph|, Registered(s, key, vector, metadata, level);
      if s.graph == [] then s' == r.(entryPoint := id, maxLayer := level)
      else
        var top := Min(level, s.maxLayer);
        && Locates(metric, s, r.graph, vector, level, log.hops)
        && Rounds(Connecting(metric, s.config, id, vector), r.graph, [Reach(s.entryPoint, log.hops)], top, 0,
                  log.layers)
        && var linked := r.(graph := After(r.graph, log.layers));
           s' == if level > s.maxLayer then linked.(entryPoint := id, maxLayer := level) else linked
  }

  /** Insert stops on an out-of-range index exactly when the entry point is below the first layer to link. */
  ghost predicate Faults(s: State, key: string, level: nat) {
    && key !in s.idMap && s.graph != []
    && 0 <= s.entryPoint < |s.graph| && s.graph[s.entryPoint].Level() < Min(level, s.maxLayer)
  }

  /** What such an insert leaves behind: the node registered, with one link to the entry point. */
  function Faulted(s: State, key: string, vector: Vector, metadata: Metadata, level: nat): State
    requires Faults(s, key, level)
  {
    var r := Registered(s, key, vector, metadata, level);
    r.(graph := Append(r.graph, |s.graph|, Min(level, s.maxLayer), s.entryPoint))
  }

  /** The first live node from position i on whose key is not empty, or 0. */
  function Elected(g: Graph, keys: seq<string>, i: nat): NodeId
    requires |keys| == |g|
    decreases |g| - i
  {
    if i >= |g| then 0
    else if keys[i] != "" && !g[i].deleted then i
    else Elected(g, keys, i + 1)
  }

  function Deleted(s: State, key: string): State
    requires |s.reverseMap| == |s.graph|
  {
    if key in s.idMap && 0 <= s.idMap[key] < |s.graph| then
      var id := s.idMap[key];
      var g := s.graph[id := s.graph[id].(deleted := true)];
      s.(graph := g, idMap := s.idMap - {key},
         entryPoint := if id == s.entryPoint then Elected(g, s.reverseMap, 0) else s.entryPoint)
    else s
  }

  // ---------- queries ----------

  /** The first K live nodes of `items` from position i downwards. */
  function Live(g: Graph, items: seq<Item>, i: nat, K: int): seq<Item>
    requires i <= |items|
  {
    if i == 0 || K <= 0 then []
    else if 0 <= items[i - 1].id < |g| && !g[items[i - 1].id].deleted then
      [items[i - 1]] + Live(g, items, i - 1, K - 1)
    else Live(g, items, i - 1, K)
  }

  datatype SearchLog = SearchLog(hops: Trail<Hop>, trail: Trail<NodeId>, found: seq<Item>)

  function Breadth(s: State, K: nat, ef: int): int {
    Max(if ef <= 0 then s.ef else ef, K)
  }

  /** Search of a non-empty index finds `hits`. */
  ghost predicate Searches(metric: Metric, s: State, query: Vector, K: nat, ef: int, log: SearchLog, hits: seq<Item>) {
    && Descends(Greedy(metric, s.graph, query), s.entryPoint, s.maxLayer, 1, log.hops)
    && var v, start := View(metric, s.graph, query, 0), Reach(s.entryPoint, log.hops);
       && v.Explores({start}, Max(Breadth(s, K, ef), 1), log.trail, ToSet(Ids(log.found)))
       && Drains(v, ToSet(Ids(log.found)), log.found)
       && hits == Live(s.graph, log.found, |log.found|, K)
  }
}
