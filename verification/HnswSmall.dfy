/** Indexes of at most 2M+1 nodes: no ground-layer list is ever pruned, so the ground layer
    stays symmetric and connected and a wide enough search is exact. */
module HnswSmall {
  import opened Sets
  import opened HnswGraph
  import opened HnswNeighbors
  import opened HnswSpec
  import opened HnswInvariant
  import opened HnswRuns
  import opened HnswExact

  ghost predicate Symmetric(g: Graph) {
    forall i, j {:trigger j in LinksAt(g, i, 0)} :: j in LinksAt(g, i, 0) ==> i in LinksAt(g, j, 0)
  }

  /** The first n nodes reach node 0 and are reached from it on the ground layer. */
  ghost predicate Hub(g: Graph, n: int) {
    forall i {:trigger Reaches(g, 0, {i}, 0)} {:trigger Reaches(g, 0, {0}, i)} :: 0 <= i < n ==>
      Reaches(g, 0, {i}, 0) && Reaches(g, 0, {0}, i)
  }

  // ---------- reachability ----------

  ghost predicate Grows(g: Graph, g': Graph) {
    forall i :: Out(g, 0, i) <= Out(g', 0, i)
  }

  lemma ReachGrows(g: Graph, g': Graph, starts: set<NodeId>, i: NodeId)
    requires Grows(g, g') && Reaches(g, 0, starts, i)
    ensures Reaches(g', 0, starts, i)
  {
    var p :| IsPath(g, 0, p) && p[0] in starts && p[|p| - 1] == i;
    assert IsPath(g', 0, p);
  }

  lemma {:induction false} ReachAlong(g: Graph, starts: set<NodeId>, p: seq<NodeId>)
    requires IsPath(g, 0, p) && Reaches(g, 0, starts, p[0])
    ensures Reaches(g, 0, starts, p[|p| - 1])
  {
    if |p| > 1 {
      var front := p[..|p| - 1];
      assert IsPath(g, 0, front);
      ReachAlong(g, starts, front);
      ReachStep(g, 0, starts, front[|front| - 1], p[|p| - 1]);
    }
  }

  lemma ReachTrans(g: Graph, starts: set<NodeId>, i: NodeId, j: NodeId)
    requires Reaches(g, 0, starts, i) && Reaches(g, 0, {i}, j)
    ensures Reaches(g, 0, starts, j)
  {
    var p :| IsPath(g, 0, p) && p[0] in {i} && p[|p| - 1] == j;
    ReachAlong(g, starts, p);
  }

  lemma HubGrows(g: Graph, g': Graph, n: int)
    requires Grows(g, g') && Hub(g, n)
    ensures Hub(g', n)
  {
    forall i | 0 <= i < n ensures Reaches(g', 0, {i}, 0) && Reaches(g', 0, {0}, i) {
      ReachGrows(g, g', {i}, 0);
      ReachGrows(g, g', {0}, i);
    }
  }

  /** From any node of a hub the whole hub can be reached. */
  lemma HubReachesAll(g: Graph, n: int, i: NodeId, j: NodeId)
    requires Hub(g, n) && 0 <= i < n && 0 <= j < n
    ensures Reaches(g, 0, {i}, j)
  {
    ReachTrans(g, {i}, 0, j);
  }

  // ---------- linking on the ground layer ----------

  lemma {:induction false} ShortList(list: seq<NodeId>, n: nat, i: NodeId)
    requires Distinct(list) && 0 <= i < n && forall x :: x in list ==> 0 <= x < n && x != i
    ensures |list| <= n - 1
  {
    DistinctSize(list);
    SubsetSize(ToSet(list) + {i}, AllBelow(n));
  }

  /** With at most 2M+1 nodes no ground-layer list is pruned. */
  lemma GroundNeverPrunes(metric: Metric, g: Graph, config: Config, id: NodeId, ns: seq<NodeId>, k: nat, g': Graph)
    requires k < |ns| <= config.mmax0 && Distinct(ns) && MidLink(g, config, id, ns, k, 0) && LinkTarget(g, id, ns[k], 0)
    requires |g| <= config.mmax0 + 1 && Links(metric, g, id, ns[k], 0, config.mmax0, g')
    ensures g' == Append(Append(g, id, 0, ns[k]), ns[k], 0, id)
  {
    var n, list := ns[k], LinksAt(g, ns[k], 0);
    AppendOut(g, config, id, ns, k, 0);
    assert n !in ns[..k];
    assert ListOk(g, n, 0, list) && id !in list;
    assert LinksAt(Append(g, id, 0, n), n, 0) == list;
    forall x, y | 0 <= x < y < |list + [id]| ensures (list + [id])[x] != (list + [id])[y] {}
    ShortList(list + [id], |g|, n);
  }

  /** Linking both ways keeps the ground layer symmetric and only adds links. */
  lemma LinkedBothWays(g: Graph, config: Config, id: NodeId, n: NodeId, g': Graph)
    requires GraphOk(g, config) && 0 <= id < |g| && LinkTarget(g, id, n, 0)
    requires g' == Append(Append(g, id, 0, n), n, 0, id)
    ensures Grows(g, g') && (Symmetric(g) ==> Symmetric(g'))
    ensures n in Out(g', 0, id) && id in Out(g', 0, n) && |g'| == |g|
  {
    var g1, a, b := Append(g, id, 0, n), LinksAt(g, id, 0) + [n], LinksAt(g, n, 0) + [id];
    SetLinksAt(g, id, 0, a);
    assert g1[n].links[0] == LinksAt(g, n, 0);
    SetLinksAt(g1, n, 0, b);
    assert LinksAt(g', id, 0) == a && LinksAt(g', n, 0) == b;
    forall i ensures Out(g, 0, i) <= Out(g', 0, i) {
      assert i != id && i != n ==> LinksAt(g', i, 0) == LinksAt(g, i, 0);
    }
    if Symmetric(g) {
      forall i, j | j in LinksAt(g', i, 0) ensures i in LinksAt(g', j, 0) {
        if (i == id && j == n) || (i == n && j == id) {
        } else {
          assert j in LinksAt(g, i, 0);
          assert i in LinksAt(g, j, 0);
        }
      }
    }
  }

  lemma JoinsHub(g: Graph, id: NodeId, n: NodeId)
    requires Hub(g, id) && 0 <= n < id && n in Out(g, 0, id) && id in Out(g, 0, n)
    ensures Hub(g, id + 1)
  {
    hide Reaches, Out;
    ReachSelf(g, 0, {id}, id);
    ReachStep(g, 0, {id}, id, n);
    ReachTrans(g, {id}, n, 0);
    ReachStep(g, 0, {0}, n, id);
  }

  ghost predicate Ground(g: Graph, n: int) {
    Symmetric(g) && Hub(g, n)
  }

  ghost predicate AllTargets(g: Graph, id: NodeId, ns: seq<NodeId>) {
    forall n :: n in ns ==> LinkTarget(g, id, n, 0)
  }

  lemma GroundLink(metric: Metric, g: Graph, config: Config, id: NodeId, ns: seq<NodeId>, k: nat, g': Graph)
    requires k < |ns| <= config.mmax0 && Distinct(ns) && MidLink(g, config, id, ns, k, 0) && LinkTarget(g, id, ns[k], 0)
    requires |g| == id + 1 <= config.mmax0 + 1 && Ground(g, id)
    requires Links(metric, g, id, ns[k], 0, config.mmax0, g')
    ensures Ground(g', id + 1) && |g'| == |g|
  {
    GroundNeverPrunes(metric, g, config, id, ns, k, g');
    LinkedBothWays(g, config, id, ns[k], g');
    HubGrows(g, g', id);
    JoinsHub(g', id, ns[k]);
  }

  /** The ground layer after the first k links: the hub, joined by the new node from the first link on. */
  ghost predicate GroundAfter(g: Graph, config: Config, id: NodeId, ns: seq<NodeId>, k: nat)
    requires k <= |ns|
  {
    |g| == id + 1 && MidLink(g, config, id, ns, k, 0) && AllTargets(g, id, ns) && Symmetric(g)
    && Hub(g, id) && (k > 0 ==> Hub(g, id + 1))
  }

  lemma GroundNext(metric: Metric, g: Graph, config: Config, id: NodeId, ns: seq<NodeId>, k: nat, g': Graph)
    requires k < |ns| <= config.mmax0 && Distinct(ns) && id <= config.mmax0 && GroundAfter(g, config, id, ns, k)
    requires Links(metric, g, id, ns[k], 0, config.mmax0, g')
    ensures GroundAfter(g', config, id, ns, k + 1)
  {
    assert ns[k] in ns;
    LinkKeeps(metric, g, config, id, ns, k, 0, g');
    GroundLink(metric, g, config, id, ns, k, g');
    forall n | n in ns ensures LinkTarget(g', id, n, 0) {
      assert LinkTarget(g, id, n, 0);
    }
  }

  lemma GroundLinks(metric: Metric, g: Graph, config: Config, id: NodeId, ns: seq<NodeId>, graphs: Trail<Graph>)
    requires |ns| <= config.mmax0 && Distinct(ns) && id <= config.mmax0 && GroundAfter(g, config, id, ns, 0)
    requires Steps(Linking(metric, id, ns, 0, config.mmax0), g, |ns|, graphs)
    ensures GroundAfter(Now(g, graphs), config, id, ns, |ns|)
  {
    var step := Linking(metric, id, ns, 0, config.mmax0);
    var keeps := (g1, k) => 0 <= k <= |ns| && GroundAfter(g1, config, id, ns, k);
    forall g1, k, g2 | 0 <= k < |ns| && keeps(g1, k) && step(g1, k, g2) ensures keeps(g2, k + 1) {
      GroundNext(metric, g1, config, id, ns, k, g2);
    }
    StepsKeep(step, keeps, g, |ns|, graphs);
  }

  // ---------- whole inserts ----------

  ghost predicate SameGround(g: Graph, g': Graph) {
    |g'| == |g| && forall i :: LinksAt(g', i, 0) == LinksAt(g, i, 0)
  }

  lemma SameGroundKeeps(g: Graph, g': Graph, n: int)
    requires SameGround(g, g')
    ensures (Symmetric(g) ==> Symmetric(g')) && (Hub(g, n) ==> Hub(g', n))
  {
    if Symmetric(g) {
      forall i, j | j in LinksAt(g', i, 0) ensures i in LinksAt(g', j, 0) {
        assert j in LinksAt(g, i, 0);
      }
    }
    if Hub(g, n) {
      HubGrows(g, g', n);
    }
  }

  lemma UpperLinkKeepsGround(metric: Metric, g: Graph, id: NodeId, n: NodeId, layer: nat, maxConn: nat, g': Graph)
    requires layer > 0 && Links(metric, g, id, n, layer, maxConn, g')
    ensures SameGround(g, g')
  {
    if n != id && 0 <= n < |g| {
      var a := g[id].links[layer] + [n];
      SetLinksAt(g, id, layer, a);
      var g1 := Append(g, id, layer, n);
      SetLinksAt(g1, n, layer, g1[n].links[layer] + [id]);
      var both := Append(g1, n, layer, id);
      if |both[n].links[layer]| > maxConn {
        var list := PruneKeepsSome(metric, both, n, layer, maxConn, g');
        SetLinksAt(both, n, layer, list);
      }
    }
  }

  lemma UpperLinksKeepGround(metric: Metric, g: Graph, id: NodeId, ns: seq<NodeId>, layer: nat, maxConn: nat,
                             graphs: Trail<Graph>)
    requires layer > 0 && Steps(Linking(metric, id, ns, layer, maxConn), g, |ns|, graphs)
    ensures SameGround(g, Now(g, graphs))
  {
    var step := Linking(metric, id, ns, layer, maxConn);
    var keeps := (g1, k) => SameGround(g, g1);
    forall g1, k, g2 | 0 <= k < |ns| && keeps(g1, k) && step(g1, k, g2) ensures keeps(g2, k + 1) {
      UpperLinkKeepsGround(metric, g1, id, ns[k], layer, maxConn, g2);
    }
    StepsKeep(step, keeps, g, |ns|, graphs);
  }

  /** The ground layer while the layers from `low` upwards are done. */
  ghost predicate GroundWhile(g: Graph, id: NodeId, low: int) {
    |g| == id + 1 && Symmetric(g) && Hub(g, id) && (low == 0 ==> Hub(g, id + 1))
  }

  lemma GroundRound(metric: Metric, config: Config, g: Graph, id: NodeId, vector: Vector, entries: seq<NodeId>,
                    layer: nat, log: LayerLog)
    requires id <= config.mmax0 && config.mmax0 >= 1
    requires Ready(g, config, id, layer) && EntriesOn(g, id, entries, layer) && GroundWhile(g, id, layer + 1)
    requires ConnectsAt(metric, g, id, vector, entries, config.efConstruction, layer, config.MaxConn(layer), log)
    ensures GroundWhile(log.after, id, layer)
  {
    var ns := Ids(Chosen(View(metric, g, vector, layer), log.sel));
    if layer > 0 {
      UpperLinksKeepGround(metric, g, id, ns, layer, config.MaxConn(layer), log.graphs);
      SameGroundKeeps(g, log.after, id);
    } else {
      FoundOn(metric, g, config, id, vector, entries, config.efConstruction, layer, config.MaxConn(layer), log);
      assert ns[..0] == [];
      GroundLinks(metric, g, config, id, ns, log.graphs);
    }
  }

  lemma ConnectsGround(metric: Metric, config: Config, g: Graph, id: NodeId, vector: Vector, entries: seq<NodeId>,
                       top: nat, logs: Trail<LayerLog>)
    requires id <= config.mmax0 && config.mmax0 >= 1 && Standing(g, g, config, id, entries, top + 1)
    requires GroundWhile(g, id, top + 1) && Rounds(Connecting(metric, config, id, vector), g, entries, top, 0, logs)
    ensures GroundWhile(After(g, logs), id, 0)
  {
    hide ConnectsAt, Ready, EntriesOn, Hub, Symmetric;
    var round := Connecting(metric, config, id, vector);
    var keeps := (g1, es, layer) => layer >= 0 && Standing(g, g1, config, id, es, layer) && GroundWhile(g1, id, layer);
    forall g1, es, layer, log | keeps(g1, es, layer + 1) && round(g1, es, layer, log)
      ensures keeps(log.after, Ids(log.found), layer)
    {
      NextLayer(metric, g, g1, config, id, vector, es, layer, log);
      GroundRound(metric, config, g1, id, vector, es, layer, log);
    }
    RoundsKeep(round, keeps, g, entries, top, 0, logs);
  }

  // ---------- whole histories ----------

  ghost predicate GroundOk(s: State) {
    Symmetric(s.graph) && Hub(s.graph, |s.graph|)
  }

  lemma RegisteredGround(s: State, key: string, vector: Vector, metadata: Metadata, level: nat)
    requires WellFormed(s) && GroundOk(s)
    ensures var g := Registered(s, key, vector, metadata, level).graph;
      |g| == |s.graph| + 1 && Symmetric(g) && Hub(g, |s.graph|)
  {
    var g := Registered(s, key, vector, metadata, level).graph;
    forall i ensures LinksAt(g, i, 0) == LinksAt(s.graph, i, 0) {
      RegisteredAt(s.graph, g[|s.graph|], i, 0);
    }
    forall i, j | j in LinksAt(g, i, 0) ensures i in LinksAt(g, j, 0) {
      assert j in LinksAt(s.graph, i, 0);
    }
    forall i ensures Out(s.graph, 0, i) <= Out(g, 0, i) {}
    HubGrows(s.graph, g, |s.graph|);
  }

  lemma InsertKeepsGround(metric: Metric, s: State, key: string, vector: Vector, metadata: Metadata, level: nat,
                          log: InsertLog, s': State)
    requires WellFormed(s) && GroundOk(s) && !Faults(s, key, level) && |s'.graph| <= s.config.mmax0 + 1
    requires Inserts(metric, s, key, vector, metadata, level, log, s')
    ensures GroundOk(s')
  {
    if key in s.idMap {
      assert SameGround(s.graph, s'.graph);
      SameGroundKeeps(s.graph, s'.graph, |s.graph|);
    } else {
      var r, id := Registered(s, key, vector, metadata, level), |s.graph|;
      RegisteredGround(s, key, vector, metadata, level);
      if s.graph == [] {
        ReachSelf(r.graph, 0, {0}, 0);
      } else {
        InsertLevels(metric, s, key, vector, metadata, level, log, s');
        StartsOn(metric, s, key, vector, metadata, level, log.hops);
        ConnectsGround(metric, s.config, r.graph, id, vector, [Reach(s.entryPoint, log.hops)],
                       Min(level, s.maxLayer), log.layers);
      }
    }
  }

  /** After any history that leaves at most 2M+1 nodes, tombstones counted, the ground layer
      is symmetric and connected. */
  lemma {:induction false} SmallRunsStayConnected(metric: Metric, m: int, efConstruction: int, run: Trail<Event>)
    requires Runs(metric, Empty(m, efConstruction), run)
    requires |Last(Empty(m, efConstruction), run).graph| <= 2 * Built(m, efConstruction).m + 1
    ensures GroundOk(Last(Empty(m, efConstruction), run))
  {
    if run.Then? {
      var s, s' := Last(Empty(m, efConstruction), run.before), run.last.after;
      RunsAreWellFormed(metric, m, efConstruction, run.before);
      StepKeepsWellFormed(metric, s, run.last.op, s');
      ConfigStays(metric, m, efConstruction, run);
      SmallRunsStayConnected(metric, m, efConstruction, run.before);
      StepKeepsGround(metric, s, run.last.op, s');
    }
  }

  lemma StepKeepsGround(metric: Metric, s: State, op: Op, s': State)
    requires WellFormed(s) && GroundOk(s) && Step(metric, s, op, s') && |s'.graph| <= s.config.mmax0 + 1
    ensures GroundOk(s')
  {
    match op
    case InsertOp(key, vector, metadata, level, log) =>
      InsertKeepsGround(metric, s, key, vector, metadata, level, log, s');
    case DeleteOp(key) =>
      assert SameGround(s.graph, s'.graph);
      SameGroundKeeps(s.graph, s'.graph, |s.graph|);
    case SetEfOp(ef) =>
  }

  ghost function AllLive(g: Graph): set<NodeId> {
    LiveIn(g, AllBelow(|g|))
  }

  lemma HubIsReached(v: View, start: NodeId)
    requires v.layer == 0 && Hub(v.graph, |v.graph|) && 0 <= start < |v.graph|
    ensures v.Reached({start}) == AllBelow(|v.graph|)
  {
    forall j | j in AllBelow(|v.graph|) ensures j in v.Reached({start}) {
      HubReachesAll(v.graph, |v.graph|, start, j);
    }
  }

  /** On a connected ground layer a search at least as wide as the index finds the K nearest live nodes. */
  lemma WideSearchIsExact(metric: Metric, s: State, query: Vector, K: nat, ef: int, log: SearchLog, hits: seq<Item>)
    requires WellFormed(s) && GroundOk(s) && s.graph != [] && Searches(metric, s, query, K, ef, log, hits)
    requires K >= |s.graph| || (if ef <= 0 then s.ef else ef) >= |s.graph|
    ensures NearestOf(View(metric, s.graph, query, 0), hits, AllLive(s.graph), K)
  {
    var v, start := View(metric, s.graph, query, 0), Reach(s.entryPoint, log.hops);
    DescentNeverRises(metric, s.graph, query, s.entryPoint, s.maxLayer, 1, log.hops);
    HubIsReached(v, start);
    assert v.InRange({start});
    v.RoomyIsExhaustive({start}, Max(Breadth(s, K, ef), 1), log.trail, ToSet(Ids(log.found)));
    HitsAreNearestFound(metric, s, query, K, ef, log, hits);
  }

  /** Search is exact after every history of inserts, re-inserts and deletes that leaves at
      most 2M+1 nodes, whatever levels were drawn, if it is as wide as the index is large. */
  lemma SmallIndexSearchIsExact(metric: Metric, m: int, efConstruction: int, run: Trail<Event>, query: Vector, K: nat,
                                ef: int, log: SearchLog, hits: seq<Item>)
    requires Runs(metric, Empty(m, efConstruction), run)
    requires var s := Last(Empty(m, efConstruction), run);
      && 0 < |s.graph| <= 2 * Built(m, efConstruction).m + 1
      && (K >= |s.graph| || (if ef <= 0 then s.ef else ef) >= |s.graph|)
      && Searches(metric, s, query, K, ef, log, hits)
    ensures var g := Last(Empty(m, efConstruction), run).graph;
      NearestOf(View(metric, g, query, 0), hits, AllLive(g), K)
  {
    hide Searches, WellFormed, GroundOk, NearestOf;
    RunsAreWellFormed(metric, m, efConstruction, run);
    SmallRunsStayConnected(metric, m, efConstruction, run);
    WideSearchIsExact(metric, Last(Empty(m, efConstruction), run), query, K, ef, log, hits);
  }
}
