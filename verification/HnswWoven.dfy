/** What Insert makes of a graph, said of the graph before and after: which nodes it links, and what
    becomes of every link list.  No step in between is mentioned. */
module HnswWoven {
  import opened Sets
  import opened HnswGraph
  import opened HnswNeighbors
  import opened HnswSpec
  import opened HnswInvariant
  import opened HnswSelection
  import opened HnswAnswers

  // ---------- pruning ----------

  lemma {:induction false} LinkItemsOffered(v: View, links: seq<NodeId>, n: nat, i: NodeId)
    requires n <= |links| && i in links[..n] && 0 <= i < |v.graph|
    ensures Item(i, v.Dist(i)) in LinkItems(v, links, n)
  {
    if i in links[..n - 1] {
      LinkItemsOffered(v, links, n - 1, i);
    }
  }

  lemma LinksAreOffered(v: View, links: seq<NodeId>)
    ensures Offers(v, PoolOf(LinkItems(v, links, |links|)), InGraph(v.graph, links))
  {
    var items := LinkItems(v, links, |links|);
    var pool := PoolOf(items);
    PoolHasOneEach(items, |items|);
    forall x | x in pool ensures Exists(v, x) && x.dist == v.Dist(x.id) && x.id in InGraph(v.graph, links) {
      LinkItemsFromLinks(v, links, |links|, x);
    }
    forall n | n in InGraph(v.graph, links) ensures Item(n, v.Dist(n)) in pool {
      assert links[..|links|] == links;
      LinkItemsOffered(v, links, |links|, n);
      var k :| 0 <= k < |items| && items[k] == Item(n, v.Dist(n));
      assert HasId(pool, items[k].id);
      var x :| x in pool && x.id == n;
      assert x.dist == v.Dist(n);
    }
  }

  /** The nodes of `v` have the same vectors in `w`. */
  ghost predicate SameVectors(v: View, w: View) {
    && w.metric == v.metric && w.query == v.query && |v.graph| <= |w.graph|
    && forall i {:trigger w.graph[i]} :: 0 <= i < |v.graph| ==> w.graph[i].vector == v.graph[i].vector
  }

  lemma CrowdedAlike(v: View, w: View, heads: seq<NodeId>, x: NodeId)
    requires SameVectors(v, w) && 0 <= x < |v.graph| && forall r :: r in heads ==> 0 <= r < |v.graph|
    ensures Crowded(w, heads, x) <==> Crowded(v, heads, x)
  {
    assert w.graph[x].vector == v.graph[x].vector;
    forall r | r in heads ensures v.Dist(r) == w.Dist(r) && Between(v, x, r) == Between(w, x, r) {
      assert w.graph[r].vector == v.graph[r].vector;
    }
  }

  lemma ChoosesAlike(v: View, w: View, among: set<NodeId>, M: nat, ns: seq<NodeId>, heads: nat)
    requires SameVectors(v, w) && v.InRange(among) && Chooses(w, among, M, ns, heads)
    ensures Chooses(v, among, M, ns, heads)
  {
    hide Crowded;
    forall i | 0 <= i < |v.graph| ensures v.Dist(i) == w.Dist(i) {
      assert w.graph[i].vector == v.graph[i].vector;
    }
    forall i, j | 0 <= i < j < heads ensures Between(v, ns[j], ns[i]) == Between(w, ns[j], ns[i]) {
      assert ns[i] in ns && ns[j] in ns;
      assert w.graph[ns[i]].vector == v.graph[ns[i]].vector && w.graph[ns[j]].vector == v.graph[ns[j]].vector;
    }
    forall i | 0 <= i < |ns| ensures 0 <= ns[i] < |v.graph| {
      assert ns[i] in ns;
    }
    SpreadAlike(v, w, ns[..heads]);
    forall x | x in among ensures Crowded(w, ns[..heads], x) <==> Crowded(v, ns[..heads], x) {
      CrowdedAlike(v, w, ns[..heads], x);
    }
    SparedAlike(v, w, among, M, ns, heads);
  }

  lemma SpreadAlike(v: View, w: View, heads: seq<NodeId>)
    requires SameVectors(v, w) && Spread(w, heads) && forall i :: 0 <= i < |heads| ==> 0 <= heads[i] < |v.graph|
    ensures Spread(v, heads)
  {
    forall i, j | 0 <= i < j < |heads|
      ensures v.Dist(heads[i]) <= v.Dist(heads[j]) <= Between(v, heads[j], heads[i])
    {
      assert w.graph[heads[i]].vector == v.graph[heads[i]].vector;
      assert w.graph[heads[j]].vector == v.graph[heads[j]].vector;
    }
  }

  lemma SparedAlike(v: View, w: View, among: set<NodeId>, M: nat, ns: seq<NodeId>, heads: nat)
    requires heads <= |ns| && (forall i :: i in among ==> v.Dist(i) == w.Dist(i))
    requires forall i :: 0 <= i < |ns| ==> ns[i] in among
    requires forall x :: x in among ==> (Crowded(w, ns[..heads], x) <==> Crowded(v, ns[..heads], x))
    requires forall x :: x in among && x !in ns ==> Spared(w, M, ns, heads, x)
    ensures forall x :: x in among && x !in ns ==> Spared(v, M, ns, heads, x)
  {
    hide Crowded;
  }

  lemma ChoiceAlike(v: View, w: View, among: set<NodeId>, M: nat, ns: seq<NodeId>)
    requires SameVectors(v, w) && v.InRange(among) && Choice(w, among, M, ns)
    ensures Choice(v, among, M, ns)
  {
    hide Chooses;
    var heads: nat :| Chooses(w, among, M, ns, heads);
    ChoosesAlike(v, w, among, M, ns, heads);
  }

  /** A node's list once it has taken a link to `id`: one longer or, where that is too long, the
      choice among its links and the new one. */
  ghost predicate Receives(v: View, list: seq<NodeId>, id: NodeId, cap: nat, list': seq<NodeId>) {
    if |list| < cap then list' == list + [id] else Choice(v, InGraph(v.graph, list + [id]), cap, list')
  }

  /** Two nodes after they have been linked, and all others. */
  ghost predicate Paired(metric: Metric, g: Graph, id: NodeId, n: NodeId, layer: nat, cap: nat, g': Graph) {
    && SameNodes(g, g') && 0 <= n < |g|
    && LinksAt(g', id, layer) == LinksAt(g, id, layer) + [n]
    && Receives(View(metric, g, g[n].vector, layer), LinksAt(g, n, layer), id, cap, LinksAt(g', n, layer))
    && forall i, l: nat {:trigger LinksAt(g', i, l)} :: l != layer || (i != id && i != n) ==>
         LinksAt(g', i, l) == LinksAt(g, i, l)
  }

  lemma PruneChooses(metric: Metric, g: Graph, n: NodeId, layer: nat, cap: nat, g': Graph) returns (list: seq<NodeId>)
    requires Prunes(metric, g, n, layer, cap, g')
    ensures g' == SetLinks(g, n, layer, list)
    ensures Choice(View(metric, g, g[n].vector, layer), InGraph(g, LinksAt(g, n, layer)), cap, list)
  {
    hide Selects, Chooses;
    var v, links := View(metric, g, g[n].vector, layer), g[n].links[layer];
    var pool := PoolOf(LinkItems(v, links, |links|));
    var sel :| Selects(v, pool, cap, true, sel) && g' == SetLinks(g, n, layer, Ids(Chosen(v, sel)));
    list := Ids(Chosen(v, sel));
    LinksAreOffered(v, links);
    SelectionIsChoice(v, pool, InGraph(g, links), cap, sel);
  }

  lemma LinksPair(metric: Metric, g: Graph, id: NodeId, n: NodeId, layer: nat, cap: nat, g': Graph)
    requires 0 <= id < |g| && layer < |g[id].links| && LinkTarget(g, id, n, layer)
    requires Links(metric, g, id, n, layer, cap, g')
    ensures Paired(metric, g, id, n, layer, cap, g')
  {
    hide Choice, Prunes;
    var list := LinksAt(g, n, layer) + [id];
    var g1 := Append(g, id, layer, n);
    SetLinksAt(g, id, layer, LinksAt(g, id, layer) + [n]);
    assert LinksAt(g1, n, layer) == LinksAt(g, n, layer);
    var both := SetLinks(g1, n, layer, list);
    SetLinksAt(g1, n, layer, list);
    assert Append(g1, n, layer, id) == both;
    if |list| > cap {
      var kept := PruneChooses(metric, both, n, layer, cap, g');
      SetLinksTwice(g1, n, layer, list, kept);
      SetLinksAt(g1, n, layer, kept);
      var v := View(metric, g, g[n].vector, layer);
      assert InGraph(both, list) == InGraph(g, list) && both[n].vector == g[n].vector;
      ChoiceAlike(v, View(metric, both, g[n].vector, layer), InGraph(g, list), cap, kept);
    }
  }

  // ---------- one layer ----------

  /** Of the old nodes, those that the new one links to have received the link, and the others have
      kept their lists. */
  ghost predicate Linked(metric: Metric, r: Graph, g: Graph, g': Graph, id: NodeId, ns: seq<NodeId>, layer: nat,
                         cap: nat) {
    && SameNodes(r, g') && LinksAt(g', id, layer) == ns
    && forall i {:trigger LinksAt(g', i, layer)} :: 0 <= i < |r| && i != id ==>
         if i in ns then
           Receives(View(metric, r, r[i].vector, layer), LinksAt(g, i, layer), id, cap, LinksAt(g', i, layer))
         else LinksAt(g', i, layer) == LinksAt(g, i, layer)
  }

  ghost predicate OtherLayers(g: Graph, g': Graph, layer: nat) {
    forall i, l: nat {:trigger LinksAt(g', i, l)} :: l != layer ==> LinksAt(g', i, l) == LinksAt(g, i, l)
  }

  lemma ReceivesAlike(v: View, w: View, list: seq<NodeId>, id: NodeId, cap: nat, list': seq<NodeId>)
    requires SameVectors(v, w) && |v.graph| == |w.graph| && Receives(w, list, id, cap, list')
    ensures Receives(v, list, id, cap, list')
  {
    hide Choice;
    if |list| >= cap {
      ChoiceAlike(v, w, InGraph(v.graph, list + [id]), cap, list');
    }
  }

  lemma NextIsLinked(metric: Metric, r: Graph, g: Graph, g1: Graph, id: NodeId, ns: seq<NodeId>, k: nat, layer: nat,
                     cap: nat, g2: Graph)
    requires k < |ns| && Distinct(ns) && 0 <= id < |r| && layer < |r[id].links| && LinkTarget(r, id, ns[k], layer)
    requires Linked(metric, r, g, g1, id, ns[..k], layer, cap) && OtherLayers(g, g1, layer)
    requires Links(metric, g1, id, ns[k], layer, cap, g2)
    ensures Linked(metric, r, g, g2, id, ns[..k + 1], layer, cap) && OtherLayers(g, g2, layer)
  {
    hide Receives, Links;
    var n := ns[k];
    LinksPair(metric, g1, id, n, layer, cap, g2);
    assert ns[..k + 1] == ns[..k] + [n] && n !in ns[..k];
    assert LinksAt(g1, n, layer) == LinksAt(g, n, layer);
    ReceivesAlike(View(metric, r, r[n].vector, layer), View(metric, g1, g1[n].vector, layer), LinksAt(g, n, layer), id,
                  cap, LinksAt(g2, n, layer));
    forall i | 0 <= i < |r| && i != id
      ensures if i in ns[..k + 1] then
                Receives(View(metric, r, r[i].vector, layer), LinksAt(g, i, layer), id, cap, LinksAt(g2, i, layer))
              else LinksAt(g2, i, layer) == LinksAt(g, i, layer)
    {
      if i != n {
        assert LinksAt(g2, i, layer) == LinksAt(g1, i, layer);
      }
    }
  }

  lemma LayerIsLinked(metric: Metric, r: Graph, g: Graph, id: NodeId, ns: seq<NodeId>, layer: nat, cap: nat,
                      graphs: Trail<Graph>)
    requires Distinct(ns) && SameNodes(r, g) && 0 <= id < |r| && layer < |r[id].links| && LinksAt(g, id, layer) == []
    requires forall n :: n in ns ==> LinkTarget(r, id, n, layer)
    requires HnswSpec.Steps(Linking(metric, id, ns, layer, cap), g, |ns|, graphs)
    ensures Linked(metric, r, g, Now(g, graphs), id, ns, layer, cap) && OtherLayers(g, Now(g, graphs), layer)
  {
    hide Receives, Links;
    var step := Linking(metric, id, ns, layer, cap);
    var keeps := (g1, k) => 0 <= k <= |ns| && Linked(metric, r, g, g1, id, ns[..k], layer, cap)
                            && OtherLayers(g, g1, layer);
    assert ns[..0] == [] && ns[..|ns|] == ns;
    LinkedToNone(metric, r, g, id, layer, cap);
    hide Linked, OtherLayers, SameNodes, LinksAt, LinkTarget, Distinct;
    forall g1, k, g2 | 0 <= k < |ns| && keeps(g1, k) && step(g1, k, g2) ensures keeps(g2, k + 1) {
      NextIsLinked(metric, r, g, g1, id, ns, k, layer, cap, g2);
    }
    StepsKeep(step, keeps, g, |ns|, graphs);
  }

  lemma LinkedToNone(metric: Metric, r: Graph, g: Graph, id: NodeId, layer: nat, cap: nat)
    requires SameNodes(r, g) && LinksAt(g, id, layer) == []
    ensures Linked(metric, r, g, g, id, [], layer, cap) && OtherLayers(g, g, layer)
  {
  }

  // ---------- the search of a layer ----------

  /** `w` has the nodes of `v`, with the same vectors and the same links on the layer, and perhaps
      more that no link of theirs leads to. */
  ghost predicate Shows(v: View, w: View) {
    && SameVectors(v, w) && w.layer == v.layer
    && forall i {:trigger LinksAt(w.graph, i, v.layer)} :: 0 <= i < |v.graph| ==>
         && LinksAt(w.graph, i, v.layer) == LinksAt(v.graph, i, v.layer)
         && forall n :: n in LinksAt(v.graph, i, v.layer) ==> 0 <= n < |v.graph|
  }

  lemma SuccAlike(v: View, w: View, i: NodeId)
    requires Shows(v, w) && 0 <= i < |v.graph|
    ensures w.Succ(i) == v.Succ(i) && v.InRange(v.Succ(i)) && w.Dist(i) == v.Dist(i)
  {
    assert LinksAt(w.graph, i, v.layer) == LinksAt(v.graph, i, v.layer);
    assert w.graph[i].vector == v.graph[i].vector;
  }

  lemma {:induction false} BestFirstAlike(v: View, w: View, starts: set<NodeId>, cap: nat, trail: Trail<NodeId>)
    requires Shows(v, w) && v.InRange(starts) && w.BestFirst(starts, cap, trail)
    ensures v.BestFirst(starts, cap, trail) && w.Seen(starts, trail) == v.Seen(starts, trail)
    ensures v.InRange(v.Seen(starts, trail))
  {
    hide Shows, View.Succ, View.Dist;
    if trail.Then? {
      BestFirstAlike(v, w, starts, cap, trail.before);
      var seen := v.Seen(starts, trail.before);
      forall i | i in seen ensures v.Dist(i) == w.Dist(i) {
        SuccAlike(v, w, i);
      }
      SuccAlike(v, w, trail.last);
      assert v.Closer(seen, trail.last) == w.Closer(seen, trail.last);
    }
  }

  lemma ExploresAlike(v: View, w: View, starts: set<NodeId>, cap: nat, trail: Trail<NodeId>, found: set<NodeId>)
    requires Shows(v, w) && v.InRange(starts) && w.Explores(starts, cap, trail, found)
    ensures v.Explores(starts, cap, trail, found) && v.InRange(found)
  {
    hide Shows, View.BestFirst, View.Seen, View.Dist;
    BestFirstAlike(v, w, starts, cap, trail);
    forall i | i in v.Seen(starts, trail) ensures v.Dist(i) == w.Dist(i) {
      SuccAlike(v, w, i);
    }
  }

  lemma DrainedAreOffered(v: View, found: set<NodeId>, items: seq<Item>)
    requires Drains(v, found, items) && v.InRange(found)
    ensures Offers(v, PoolOf(items), found)
  {
    var pool := PoolOf(items);
    PoolHasOneEach(items, |items|);
    forall x | x in pool ensures Exists(v, x) && x.dist == v.Dist(x.id) && x.id in found {
      var k :| 0 <= k < |items| && items[k] == x;
      assert Ids(items)[k] == x.id && x.id in ToSet(Ids(items));
    }
    forall n | n in found ensures Item(n, v.Dist(n)) in pool {
      var k :| 0 <= k < |items| && Ids(items)[k] == n;
      assert HasId(pool, items[k].id);
      var x :| x in pool && x.id == n;
      assert x.dist == v.Dist(n);
    }
  }

  // ---------- all layers ----------

  /** What Insert does at one layer: it finds nodes near the vector, from the given ones, chooses
      among them the neighbours of the new node, and links those back to it. */
  ghost predicate WovenOn(metric: Metric, r: Graph, g: Graph, g': Graph, id: NodeId, vector: Vector, ef: nat, cap: nat,
                          layer: nat, starts: set<NodeId>, found: set<NodeId>) {
    var v, ns := View(metric, g, vector, layer), LinksAt(g', id, layer);
    && Covers(v, starts, Max(ef, |starts|), found)
    && Choice(v, found, cap, ns)
    && Linked(metric, r, g, g', id, ns, layer, cap)
  }

  /** The old graph, and the same with the new node in it but no links to or from it. */
  ghost predicate Fresher(g: Graph, r: Graph, id: NodeId) {
    && |r| == |g| + 1 && id == |g|
    && (forall i {:trigger r[i]} :: 0 <= i < |g| ==> r[i] == g[i])
    && (forall l: nat {:trigger LinksAt(r, id, l)} :: LinksAt(r, id, l) == [])
    && (forall i, n, l: nat {:trigger n in LinksAt(g, i, l)} :: n in LinksAt(g, i, l) ==> 0 <= n < |g|)
  }

  lemma RoundFinds(metric: Metric, config: Config, g: Graph, r: Graph, g1: Graph, id: NodeId, vector: Vector,
                   entries: seq<NodeId>, layer: nat, log: LayerLog)
    requires Fresher(g, r, id) && SameNodes(r, g1) && forall i :: LinksAt(g1, i, layer) == LinksAt(r, i, layer)
    requires Ready(g1, config, id, layer) && EntriesOn(g1, id, entries, layer) && config.efConstruction >= 1
    requires ConnectsAt(metric, g1, id, vector, entries, config.efConstruction, layer, config.MaxConn(layer), log)
    ensures var v, starts, found := View(metric, g, vector, layer), ToSet(entries), ToSet(Ids(log.found));
      && Covers(v, starts, Max(config.efConstruction, |starts|), found)
      && Choice(v, found, config.MaxConn(layer), Ids(Chosen(View(metric, g1, vector, layer), log.sel)))
  {
    hide Covers, Chooses, Selects, HnswSpec.Steps, Ready, Linking;
    var v, w := View(metric, g, vector, layer), View(metric, g1, vector, layer);
    var starts, found := ToSet(entries), ToSet(Ids(log.found));
    assert w.Starts(entries) == starts && v.InRange(starts);
    OldIsShown(metric, g, r, g1, id, vector, layer);
    hide Shows, View.Explores, Fresher, SameNodes, EntriesOn, LinksAt;
    ExploresAlike(v, w, starts, Max(config.efConstruction, |starts|), log.trail, found);
    ExploredCovers(v, starts, Max(config.efConstruction, |starts|), log.trail, found);
    DrainedAreOffered(w, found, log.found);
    SelectionIsChoice(w, PoolOf(log.found), found, config.MaxConn(layer), log.sel);
    assert SameVectors(v, w) by { ShowsVectors(v, w); }
    ChoiceAlike(v, w, found, config.MaxConn(layer), Ids(Chosen(w, log.sel)));
  }

  lemma OldIsShown(metric: Metric, g: Graph, r: Graph, g1: Graph, id: NodeId, vector: Vector, layer: nat)
    requires Fresher(g, r, id) && SameNodes(r, g1) && forall i :: LinksAt(g1, i, layer) == LinksAt(r, i, layer)
    ensures Shows(View(metric, g, vector, layer), View(metric, g1, vector, layer))
  {
    forall i | 0 <= i < |g|
      ensures LinksAt(g1, i, layer) == LinksAt(g, i, layer) && g1[i].vector == g[i].vector
    {
      assert r[i] == g[i];
    }
  }

  lemma ShowsVectors(v: View, w: View)
    requires Shows(v, w)
    ensures SameVectors(v, w)
  {
  }

  lemma RoundWeaves(metric: Metric, config: Config, g: Graph, r: Graph, g1: Graph, id: NodeId, vector: Vector,
                    entries: seq<NodeId>, layer: nat, log: LayerLog)
    requires Fresher(g, r, id) && forall i :: LinksAt(g1, i, layer) == LinksAt(r, i, layer)
    requires Standing(r, g1, config, id, entries, layer + 1) && config.efConstruction >= 1
    requires ConnectsAt(metric, g1, id, vector, entries, config.efConstruction, layer, config.MaxConn(layer), log)
    ensures OtherLayers(g1, log.after, layer) && SameNodes(r, log.after)
    ensures WovenOn(metric, r, g, log.after, id, vector, config.efConstruction, config.MaxConn(layer), layer,
                    ToSet(entries), ToSet(Ids(log.found)))
  {
    hide Covers, Choice, Selects, Linking, GraphOk, Receives, View.Explores, Drains;
    var cap, ns := config.MaxConn(layer), Ids(Chosen(View(metric, g1, vector, layer), log.sel));
    RoundFinds(metric, config, g, r, g1, id, vector, entries, layer, log);
    FoundOn(metric, g1, config, id, vector, entries, config.efConstruction, layer, cap, log);
    forall n | n in ns ensures LinkTarget(r, id, n, layer) {
      assert LinkTarget(g1, id, n, layer);
    }
    assert LinksAt(g1, id, layer) == LinksAt(r, id, layer) == [];
    LayerIsLinked(metric, r, g1, id, ns, layer, cap, log.graphs);
    LinkedOver(metric, r, g, g1, log.after, id, ns, layer, cap);
  }

  lemma LinkedOver(metric: Metric, r: Graph, g: Graph, g1: Graph, g': Graph, id: NodeId, ns: seq<NodeId>, layer: nat,
                   cap: nat)
    requires Fresher(g, r, id) && Linked(metric, r, g1, g', id, ns, layer, cap)
    requires forall i :: LinksAt(g1, i, layer) == LinksAt(r, i, layer)
    ensures Linked(metric, r, g, g', id, ns, layer, cap)
  {
    hide Receives;
    forall i | 0 <= i < |g| ensures LinksAt(g1, i, layer) == LinksAt(g, i, layer) {
      assert r[i] == g[i];
    }
  }

  /** Where the search on the k-th of the layers starts: what was found on the layer above. */
  function StartsOf(entries: set<NodeId>, finds: seq<set<NodeId>>, k: nat): set<NodeId> {
    if k + 1 < |finds| then finds[k + 1] else entries
  }

  ghost predicate WovenAt(metric: Metric, config: Config, r: Graph, g: Graph, g': Graph, id: NodeId, vector: Vector,
                          entries: set<NodeId>, low: nat, finds: seq<set<NodeId>>, k: nat)
    requires k < |finds|
  {
    WovenOn(metric, r, g, g', id, vector, config.efConstruction, config.MaxConn(low + k), low + k,
            StartsOf(entries, finds, k), finds[k])
  }

  /** All layers from `low` to `top`, and no other. */
  ghost predicate WovenFrom(metric: Metric, config: Config, r: Graph, g: Graph, g': Graph, id: NodeId, vector: Vector,
                            entries: set<NodeId>, low: nat, top: int, finds: seq<set<NodeId>>) {
    && |finds| == top + 1 - low && SameNodes(r, g')
    && (forall k :: 0 <= k < |finds| ==> WovenAt(metric, config, r, g, g', id, vector, entries, low, finds, k))
    && (forall i, l: nat {:trigger LinksAt(g', i, l)} :: l < low || l > top ==> LinksAt(g', i, l) == LinksAt(r, i, l))
  }

  lemma WovenStays(metric: Metric, r: Graph, g: Graph, g1: Graph, g2: Graph, id: NodeId, vector: Vector, ef: nat,
                   cap: nat, layer: nat, starts: set<NodeId>, found: set<NodeId>)
    requires WovenOn(metric, r, g, g1, id, vector, ef, cap, layer, starts, found) && SameNodes(r, g2)
    requires forall i :: LinksAt(g2, i, layer) == LinksAt(g1, i, layer)
    ensures WovenOn(metric, r, g, g2, id, vector, ef, cap, layer, starts, found)
  {
    hide Covers, Choice, Receives;
  }

  /** The rounds of phase 2 weave the new node in, layer by layer. */
  lemma {:induction false} RoundsWeave(metric: Metric, config: Config, g: Graph, r: Graph, id: NodeId, vector: Vector,
                                       entries: seq<NodeId>, top: nat, low: nat, logs: Trail<LayerLog>)
    returns (finds: seq<set<NodeId>>)
    requires Fresher(g, r, id) && low <= top + 1 && Standing(r, r, config, id, entries, top + 1)
    requires Rounds(Connecting(metric, config, id, vector), r, entries, top, low, logs) && config.efConstruction >= 1
    ensures WovenFrom(metric, config, r, g, After(r, logs), id, vector, ToSet(entries), low, top, finds)
    ensures ToSet(Entries(entries, logs)) == if finds == [] then ToSet(entries) else finds[0]
    decreases top + 1 - low
  {
    hide WovenOn, Fresher, Standing, ConnectsAt;
    if low > top {
      finds := [];
      StandingIsSame(r, config, id, entries, top + 1);
    } else {
      var above := RoundsWeave(metric, config, g, r, id, vector, entries, top, low + 1, logs.before);
      var g1, es, log := After(r, logs.before), Entries(entries, logs.before), logs.last;
      ConnectsKeeps(metric, config, r, id, vector, entries, top, low + 1, logs.before);
      RoundWeaves(metric, config, g, r, g1, id, vector, es, low, log);
      finds := [ToSet(Ids(log.found))] + above;
      forall k | 0 <= k < |finds|
        ensures WovenAt(metric, config, r, g, log.after, id, vector, ToSet(entries), low, finds, k)
      {
        if k > 0 {
          assert WovenAt(metric, config, r, g, g1, id, vector, ToSet(entries), low + 1, above, k - 1);
          assert StartsOf(ToSet(entries), finds, k) == StartsOf(ToSet(entries), above, k - 1);
          WovenStays(metric, r, g, g1, log.after, id, vector, config.efConstruction, config.MaxConn(low + k), low + k,
                     StartsOf(ToSet(entries), finds, k), finds[k]);
        }
      }
    }
  }

  lemma StandingIsSame(r: Graph, config: Config, id: NodeId, entries: seq<NodeId>, low: nat)
    requires Standing(r, r, config, id, entries, low)
    ensures SameNodes(r, r)
  {
  }

  // ---------- the whole of Insert ----------

  lemma {:induction false} DescendsAlike(metric: Metric, g: Graph, r: Graph, id: NodeId, vector: Vector, ep: NodeId,
                                         top: nat, low: nat, hops: Trail<Hop>)
    requires Fresher(g, r, id) && 0 <= ep < |g| && Descends(Greedy(metric, r, vector), ep, top, low, hops)
    ensures Descends(Greedy(metric, g, vector), ep, top, low, hops) && 0 <= Reach(ep, hops) < |g|
    decreases top + 1 - low
  {
    hide View.Explores, Fresher;
    if low <= top {
      DescendsAlike(metric, g, r, id, vector, ep, top, low + 1, hops.before);
      var v, w := View(metric, g, vector, low), View(metric, r, vector, low);
      ShowsOld(metric, g, r, id, vector, low);
      ExploresAlike(v, w, {Reach(ep, hops.before)}, 1, hops.last.trail, {hops.last.node});
      assert hops.last.node in {hops.last.node};
    }
  }

  lemma ShowsOld(metric: Metric, g: Graph, r: Graph, id: NodeId, vector: Vector, layer: nat)
    requires Fresher(g, r, id)
    ensures Shows(View(metric, g, vector, layer), View(metric, r, vector, layer))
  {
    forall i | 0 <= i < |g| ensures LinksAt(r, i, layer) == LinksAt(g, i, layer) && r[i].vector == g[i].vector {
      assert r[i] == g[i];
    }
  }

  /** A node like any other, without links. */
  function Bare(vector: Vector, metadata: Metadata, level: nat): Vertex {
    Vertex(vector, metadata, seq(level + 1, _ => []), false)
  }

  /** Insert of a new key: the node is named, becomes the entry point if it is the first or the
      highest, and is woven in on the layers that it shares with the others, from where a descent
      over the higher ones lands. */
  ghost predicate Woven(metric: Metric, s: State, key: string, vector: Vector, metadata: Metadata, level: nat,
                        s': State, stops: seq<NodeId>, finds: seq<set<NodeId>>) {
    var g, r, id := s.graph, s.graph + [Bare(vector, metadata, level)], |s.graph|;
    && s'.config == s.config && s'.ef == s.ef
    && s'.idMap == s.idMap[key := id] && s'.reverseMap == s.reverseMap + [key]
    && (if g == [] || level > s.maxLayer then s'.entryPoint == id && s'.maxLayer == level
        else s'.entryPoint == s.entryPoint && s'.maxLayer == s.maxLayer)
    && if g == [] then s'.graph == r
       else
         && Stops(metric, g, vector, s.entryPoint, s.maxLayer, level + 1, stops)
         && WovenFrom(metric, s.config, r, g, s'.graph, id, vector, {Landing(s.entryPoint, stops)}, 0,
                      Min(level, s.maxLayer), finds)
  }

  ghost predicate IsWoven(metric: Metric, s: State, key: string, vector: Vector, metadata: Metadata, level: nat,
                          s': State) {
    exists stops, finds :: Woven(metric, s, key, vector, metadata, level, s', stops, finds)
  }

  lemma RegisteredIsFresher(s: State, key: string, vector: Vector, metadata: Metadata, level: nat)
    requires WellFormed(s)
    ensures var r := Registered(s, key, vector, metadata, level).graph;
      Fresher(s.graph, r, |s.graph|) && r == s.graph + [Bare(vector, metadata, level)]
  {
    forall i, n, l: nat | n in LinksAt(s.graph, i, l) ensures 0 <= n < |s.graph| {
      assert ListOk(s.graph, i, l, LinksAt(s.graph, i, l));
    }
  }

  lemma LinkingWeaves(metric: Metric, s: State, key: string, vector: Vector, metadata: Metadata, level: nat,
                      log: InsertLog) returns (stops: seq<NodeId>, finds: seq<set<NodeId>>)
    requires WellFormed(s) && key !in s.idMap && !Faults(s, key, level) && s.graph != []
    requires var r, top := Registered(s, key, vector, metadata, level), Min(level, s.maxLayer);
      && Locates(metric, s, r.graph, vector, level, log.hops)
      && Rounds(Connecting(metric, s.config, |s.graph|, vector), r.graph, [Reach(s.entryPoint, log.hops)], top, 0,
                log.layers)
    ensures Stops(metric, s.graph, vector, s.entryPoint, s.maxLayer, level + 1, stops)
    ensures var r := Registered(s, key, vector, metadata, level).graph;
      WovenFrom(metric, s.config, r, s.graph, After(r, log.layers), |s.graph|, vector,
                {Landing(s.entryPoint, stops)}, 0, Min(level, s.maxLayer), finds)
  {
    var g, id, top := s.graph, |s.graph|, Min(level, s.maxLayer);
    var r := Registered(s, key, vector, metadata, level).graph;
    RegisteredIsFresher(s, key, vector, metadata, level);
    hide GraphOk, KeysOk, Fresher, Descends, Stops, WovenFrom, Rounds, Standing, Registered, Faults;
    StartsOn(metric, s, key, vector, metadata, level, log.hops);
    DescendsAlike(metric, g, r, id, vector, s.entryPoint, s.maxLayer, level + 1, log.hops);
    stops := DescentSettles(metric, g, vector, s.entryPoint, s.maxLayer, level + 1, log.hops);
    var start := Reach(s.entryPoint, log.hops);
    finds := RoundsWeave(metric, s.config, g, r, id, vector, [start], top, 0, log.layers);
    assert ToSet([start]) == {start};
  }

  lemma InsertWeaves(metric: Metric, s: State, key: string, vector: Vector, metadata: Metadata, level: nat,
                     log: InsertLog, s': State)
    requires WellFormed(s) && key !in s.idMap && !Faults(s, key, level)
    requires Inserts(metric, s, key, vector, metadata, level, log, s')
    ensures IsWoven(metric, s, key, vector, metadata, level, s')
  {
    hide WellFormed, Faults, Locates, Rounds, Stops, WovenFrom, Reach, After;
    RegisteredIsFresher(s, key, vector, metadata, level);
    if s.graph == [] {
      assert Woven(metric, s, key, vector, metadata, level, s', [], []);
    } else {
      var stops, finds := LinkingWeaves(metric, s, key, vector, metadata, level, log);
      assert Woven(metric, s, key, vector, metadata, level, s', stops, finds);
    }
  }

  /** A list that has become too long holds exactly as many links as it may, all of them its own. */
  lemma OverfullIsFull(g: Graph, config: Config, metric: Metric, i: NodeId, id: NodeId, layer: nat, cap: nat,
                       list': seq<NodeId>)
    requires GraphOk(g, config) && 0 <= i < |g| && 0 <= id < |g| && id !in LinksAt(g, i, layer)
    requires Receives(View(metric, g, g[i].vector, layer), LinksAt(g, i, layer), id, cap, list')
    ensures |list'| == Min(|LinksAt(g, i, layer)| + 1, cap) && Distinct(list')
    ensures forall n :: n in list' ==> n in LinksAt(g, i, layer) || n == id
  {
    var list := LinksAt(g, i, layer);
    assert ListOk(g, i, layer, list);
    var both := list + [id];
    assert InGraph(g, both) == ToSet(both);
    DistinctSize(both);
  }
}
