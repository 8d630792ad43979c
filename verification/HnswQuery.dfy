/** Delete, SetEF and Search. */
module HnswQuery {
  import opened Heaps
  import opened HnswGraph
  import opened HnswIndex
  import opened HnswSearchLayer
  import opened HnswSpec
  import opened HnswInvariant
  import opened HnswInsert
  import opened HnswRuns
  import opened HnswExact
  import opened HnswAnswers

  method NewIndex(metric: Metric, M: int, efConstruction: int) returns (idx: Index)
    ensures fresh(idx) && idx.Valid() && idx.nodes == [] && idx.metric == metric
    ensures StateOf(idx) == Empty(M, efConstruction)
    ensures StateOf(idx).config == Built(M, efConstruction) && idx.Ef == 100
    ensures idx.idMap == map[] && idx.reverseMap == [] && idx.currentMaxLayer == 0
  {
    idx := new Index(metric, M, efConstruction);
  }

  method SetEF(idx: Index, ef: int)
    modifies idx`Ef
    ensures idx.Ef == if ef < 1 then old(idx.Ef) else ef
  {
    if ef < 1 {
      return;
    }
    idx.Ef := ef;
  }

  /** The first live node whose key is not empty, or node 0. */
  method ElectEntryPoint(idx: Index) returns (ep: NodeId)
    requires |idx.reverseMap| == |idx.nodes|
    ensures ep == Elected(idx.Graph(), idx.reverseMap, 0)
  {
    ghost var g := idx.Graph();
    for newID := 0 to |idx.reverseMap|
      invariant Elected(g, idx.reverseMap, 0) == Elected(g, idx.reverseMap, newID)
    {
      if idx.reverseMap[newID] != "" && !idx.nodes[newID].Deleted {
        assert !g[newID].deleted;
        return newID;
      }
    }
    return 0;
  }

  method Tombstone(idx: Index, id: NodeId)
    requires idx.Valid() && 0 <= id < |idx.nodes|
    modifies idx.nodes`Deleted
    ensures idx.Graph() == old(idx.Graph())[id := old(idx.Graph())[id].(deleted := true)]
  {
    var node := idx.nodes[id];
    ghost var g := idx.Graph();
    assert g[id] == node.Value();
    node.Deleted := true;
    forall j | 0 <= j < |g| && j != id ensures idx.nodes[j].Value() == g[j] {
      assert idx.nodes[j].ID != node.ID;
    }
    assert idx.Graph() == g[id := g[id].(deleted := true)];
  }

  method Delete(idx: Index, key: string) returns (existed: bool)
    requires idx.Valid() && WellFormed(StateOf(idx))
    modifies idx`idMap, idx`entryPoint, idx.nodes`Deleted
    ensures existed == (key in old(idx.idMap))
    ensures StateOf(idx) == Deleted(old(StateOf(idx)), key)
    ensures TakesOut(old(StateOf(idx)), key, StateOf(idx))
  {
    hide TakesOut;
    ghost var s := StateOf(idx);
    existed := key in idx.idMap;
    if existed {
      var id := idx.idMap[key];
      idx.idMap := idx.idMap - {key};
      assert idx.Graph() == s.graph;
      Tombstone(idx, id);
      ghost var g := s.graph[id := s.graph[id].(deleted := true)];
      assert idx.Graph() == g;
      if id == idx.entryPoint {
        var ep := ElectEntryPoint(idx);
        idx.entryPoint := ep;
      }
      assert idx.Graph() == g;
      assert StateOf(idx).entryPoint == Deleted(s, key).entryPoint;
    }
    DeletedTakesOut(s, key);
  }

  /** Of the index only the key is gone, and its node marked; if that was the entry point, the first
      live node with a key takes its place, or node 0 if there is none. */
  ghost predicate TakesOut(s: State, key: string, s': State) {
    && s'.config == s.config && s'.ef == s.ef && s'.reverseMap == s.reverseMap && s'.maxLayer == s.maxLayer
    && s'.idMap == s.idMap - {key} && |s'.graph| == |s.graph| == |s.reverseMap|
    && (forall i {:trigger s'.graph[i]} :: 0 <= i < |s.graph| ==>
          s'.graph[i] == s.graph[i].(deleted := s.graph[i].deleted || (key in s.idMap && i == s.idMap[key])))
    && if key in s.idMap && s.idMap[key] == s.entryPoint then FirstLive(s'.graph, s.reverseMap, s'.entryPoint)
       else s'.entryPoint == s.entryPoint
  }

  ghost predicate Candidate(g: Graph, keys: seq<string>, i: NodeId) {
    0 <= i < |g| && i < |keys| && !g[i].deleted && keys[i] != ""
  }

  ghost predicate FirstLive(g: Graph, keys: seq<string>, ep: NodeId) {
    if exists i :: Candidate(g, keys, i) then Candidate(g, keys, ep) && forall i :: Candidate(g, keys, i) ==> ep <= i
    else ep == 0
  }

  lemma ElectedIsFirstLive(g: Graph, keys: seq<string>)
    requires |keys| == |g|
    ensures FirstLive(g, keys, Elected(g, keys, 0))
  {
    var e := Elected(g, keys, 0);
    ElectedIsFirst(g, keys, 0);
    if 0 <= e < |g| && keys[e] != "" && !g[e].deleted {
      assert Candidate(g, keys, e);
    }
  }

  lemma DeletedTakesOut(s: State, key: string)
    requires |s.reverseMap| == |s.graph| && (key in s.idMap ==> 0 <= s.idMap[key] < |s.graph|)
    ensures TakesOut(s, key, Deleted(s, key))
  {
    hide FirstLive;
    ElectedIsFirstLive(Deleted(s, key).graph, s.reverseMap);
    assert key !in s.idMap ==> s.idMap - {key} == s.idMap;
  }

  datatype SearchResult = SearchResult(id: string, score: real, metadata: Metadata)

  datatype Answer = IndexEmpty | Results(hits: seq<SearchResult>)

  /** The results for a list of hits. */
  function Report(s: State, hits: seq<Item>): (r: seq<SearchResult>)
    requires |s.reverseMap| == |s.graph| && forall h :: h in hits ==> 0 <= h.id < |s.graph|
    ensures |r| == |hits|
    ensures forall k :: 0 <= k < |r| ==>
      r[k] == SearchResult(s.reverseMap[hits[k].id], 1.0 - hits[k].dist, s.graph[hits[k].id].metadata)
  {
    seq(|hits|, k requires 0 <= k < |hits| =>
      assert hits[k] in hits;
      SearchResult(s.reverseMap[hits[k].id], 1.0 - hits[k].dist, s.graph[hits[k].id].metadata))
  }

  lemma {:induction false} LiveOnly(g: Graph, items: seq<Item>, i: nat, K: int, h: Item)
    requires i <= |items| && h in Live(g, items, i, K)
    ensures h in items && 0 <= h.id < |g| && !g[h.id].deleted
  {
    if i > 0 && K > 0 {
      if h != items[i - 1] {
        if h in Live(g, items, i - 1, K - 1) {
          LiveOnly(g, items, i - 1, K - 1, h);
        } else {
          LiveOnly(g, items, i - 1, K, h);
        }
      } else if !(0 <= h.id < |g| && !g[h.id].deleted) {
        LiveOnly(g, items, i - 1, K, h);
      }
    }
  }

  lemma LiveNext(g: Graph, all: seq<Item>, i: nat, K: nat, hits: seq<Item>)
    requires i < |all| && |hits| < K && 0 <= all[i].id < |g| && !g[all[i].id].deleted
    ensures hits + Live(g, all, i + 1, K - |hits|) == (hits + [all[i]]) + Live(g, all, i, K - |hits + [all[i]]|)
  {
  }

  lemma ReportNext(s: State, hits: seq<Item>, item: Item)
    requires |s.reverseMap| == |s.graph| && 0 <= item.id < |s.graph|
    requires forall h :: h in hits ==> 0 <= h.id < |s.graph|
    ensures forall h :: h in hits + [item] ==> 0 <= h.id < |s.graph|
    ensures Report(s, hits + [item]) == Report(s, hits)
         + [SearchResult(s.reverseMap[item.id], 1.0 - item.dist, s.graph[item.id].metadata)]
  {
  }

  /** Collects the first K live hits, nearest first. */
  method Collect(idx: Index, all: seq<Item>, K: nat, ghost s: State) returns (results: seq<SearchResult>)
    requires s == StateOf(idx) && |s.reverseMap| == |s.graph|
    requires forall h :: h in all ==> 0 <= h.id < |s.graph|
    ensures forall h :: h in Live(s.graph, all, |all|, K) ==> 0 <= h.id < |s.graph|
    ensures results == Report(s, Live(s.graph, all, |all|, K))
  {
    results := [];
    ghost var hits: seq<Item>, goal := [], Live(s.graph, all, |all|, K);
    var i := |all|;
    while i > 0 && |results| < K
      invariant 0 <= i <= |all| && |hits| == |results| <= K
      invariant hits + Live(s.graph, all, i, K - |hits|) == goal
      invariant forall h :: h in hits ==> 0 <= h.id < |s.graph|
      invariant results == Report(s, hits)
    {
      i := i - 1;
      var item := all[i];
      assert item in all;
      var node := idx.nodes[item.id];
      assert s.graph[item.id] == node.Value();
      if !node.Deleted {
        LiveNext(s.graph, all, i, K, hits);
        ReportNext(s, hits, item);
        results := results + [SearchResult(idx.reverseMap[item.id], 1.0 - item.dist, node.Metadata)];
        hits := hits + [item];
      }
    }
    assert hits == goal;
  }

  /** Each hit is reported under the key that leads back to its node, with its similarity to the
      query and its metadata. */
  ghost predicate Reports(idx: Index, query: Vector, hits: seq<Item>, results: seq<SearchResult>)
    reads idx, idx.nodes
  {
    && |results| == |hits|
    && forall k :: 0 <= k < |hits| ==>
         var n, r := hits[k].id, results[k];
         && r.id in idx.idMap && idx.idMap[r.id] == n && 0 <= n < |idx.nodes|
         && r.score == 1.0 - idx.metric(query, idx.nodes[n].Vector) && r.metadata == idx.nodes[n].Metadata
  }

  lemma ReportedHits(idx: Index, query: Vector, among: set<NodeId>, hits: seq<Item>, K: nat)
    requires idx.Valid() && KeysOk(StateOf(idx))
    requires NearestOf(View(idx.metric, idx.Graph(), query, 0), hits, LiveIn(idx.Graph(), among), K)
    ensures (forall h :: h in hits ==> 0 <= h.id < |idx.nodes|) && Reports(idx, query, hits, Report(StateOf(idx), hits))
  {
    forall k | 0 <= k < |hits|
      ensures 0 <= hits[k].id < |idx.nodes| && hits[k].dist == idx.metric(query, idx.nodes[hits[k].id].Vector)
      ensures var key := idx.reverseMap[hits[k].id]; key in idx.idMap && idx.idMap[key] == hits[k].id
    {
      assert hits[k] in hits;
      assert IsLive(idx.Graph(), hits[k].id) && idx.Graph()[hits[k].id] == idx.nodes[hits[k].id].Value();
    }
  }

  lemma IndexIsOk(s: State)
    requires WellFormed(s) && s.graph != []
    ensures KeysOk(s) && |s.reverseMap| == |s.graph| && 0 <= s.entryPoint < |s.graph|
  {
  }

  /** Answers a query: greedy descent to the ground layer, then a search of it. */
  method Search(idx: Index, query: Vector, K: nat, ef: int)
    returns (answer: Answer, ghost log: SearchLog, ghost hits: seq<Item>, ghost stops: seq<NodeId>)
    requires idx.Valid() && WellFormed(StateOf(idx))
    ensures idx.nodes == [] <==> answer.IndexEmpty?
    ensures answer.Results? ==> Searches(idx.metric, StateOf(idx), query, K, ef, log, hits)
    ensures answer.Results? ==>
      Answers(idx.metric, StateOf(idx), query, K, ef, stops, ToSet(Ids(log.found)), hits)
    ensures answer.Results? ==> Reports(idx, query, hits, answer.hits)
    ensures answer.Results? ==>
      var all := View(idx.metric, idx.Graph(), query, 0).Reached({Landing(idx.entryPoint, stops)});
      LiveIn(idx.Graph(), all) == all ==> |answer.hits| == Min(K, |all|)
  {
    if |idx.nodes| == 0 {
      return IndexEmpty, SearchLog(Start, Start, []), [], [];
    }
    hide Searches, Answers, Live, Report, Reports, WellFormed, LiveIn, View.Reached, Landing;
    var results;
    ghost var s := StateOf(idx);
    IndexIsOk(s);
    results, log, hits := SearchNonEmpty(idx, query, K, ef, s);
    answer := Results(results);
    stops := SearchTells(idx, query, K, ef, log, hits);
  }

  lemma SearchTells(idx: Index, query: Vector, K: nat, ef: int, log: SearchLog, hits: seq<Item>)
    returns (stops: seq<NodeId>)
    requires idx.Valid() && WellFormed(StateOf(idx)) && idx.nodes != []
    requires Searches(idx.metric, StateOf(idx), query, K, ef, log, hits)
    ensures Answers(idx.metric, StateOf(idx), query, K, ef, stops, ToSet(Ids(log.found)), hits)
    ensures |idx.reverseMap| == |idx.nodes| && (forall h :: h in hits ==> 0 <= h.id < |idx.nodes|)
    ensures Reports(idx, query, hits, Report(StateOf(idx), hits))
    ensures var all := View(idx.metric, idx.Graph(), query, 0).Reached({Landing(idx.entryPoint, stops)});
      LiveIn(idx.Graph(), all) == all ==> |hits| == Min(K, |all|)
  {
    var s, found := StateOf(idx), ToSet(Ids(log.found));
    IndexIsOk(s);
    stops := SearchAnswers(idx.metric, s, query, K, ef, log, hits);
    hide WellFormed, Searches, Reports, LiveIn, View.Reached, Landing;
    ReportedHits(idx, query, found, hits, K);
    AnswersFill(idx.metric, s, query, K, ef, stops, found, hits);
  }

  method SearchNonEmpty(idx: Index, query: Vector, K: nat, ef: int, ghost s: State)
    returns (results: seq<SearchResult>, ghost log: SearchLog, ghost hits: seq<Item>)
    requires idx.Valid() && s == StateOf(idx) && |s.reverseMap| == |s.graph| && 0 <= s.entryPoint < |s.graph|
    ensures Searches(idx.metric, s, query, K, ef, log, hits)
    ensures (forall h :: h in hits ==> 0 <= h.id < |s.graph|) && results == Report(s, hits)
  {
    var breadth := if ef <= 0 then idx.Ef else ef;
    if breadth < K {
      breadth := K;
    }
    var start, all;
    ghost var hops, trail;
    start, hops := Descend(idx, query, Greedy(idx.metric, idx.Graph(), query), idx.entryPoint, idx.currentMaxLayer, 1);
    all, trail := SearchGround(idx, query, start, breadth);
    results := Collect(idx, all, K, s);
    log, hits := SearchLog(hops, trail, all), Live(s.graph, all, |all|, K);
  }

  /** Phase 2: the found set of the ground layer, furthest first. */
  method SearchGround(idx: Index, query: Vector, start: NodeId, ef: int)
    returns (all: seq<Item>, ghost trail: Trail<NodeId>)
    requires idx.Valid() && 0 <= start < |idx.nodes|
    ensures var v := View(idx.metric, idx.Graph(), query, 0);
      v.Explores({start}, Max(ef, 1), trail, ToSet(Ids(all))) && Drains(v, ToSet(Ids(all)), all)
    ensures forall h :: h in all ==> 0 <= h.id < |idx.nodes|
  {
    ghost var v := View(idx.metric, idx.Graph(), query, 0);
    var found;
    ghost var kept;
    found, trail, kept := SearchLayer(idx, query, [start], ef, 0);
    assert v.Starts([start]) == {start};
    all := Drain(found, v, kept);
    v.SeenHolds({start}, trail, start);
    DrainedAre(v, kept, all);
  }

  lemma DrainedAre(v: View, found: set<NodeId>, all: seq<Item>)
    requires Drains(v, found, all) && v.InRange(found)
    ensures forall h :: h in all ==> 0 <= h.id < |v.graph|
  {
    forall h | h in all ensures h.id in found {
      var k :| 0 <= k < |all| && all[k] == h;
      assert Ids(all)[k] == h.id;
    }
  }
}
