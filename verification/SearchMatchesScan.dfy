/** The promise the index exists for: on a small index a wide search gives the scores that the
    brute-force scan of the live entries gives (search.go:250-311 against engine.go:34-150). */
module SearchMatchesScan {
  import opened Cosine
  import TopK
  import opened HnswGraph
  import opened HnswSpec
  import opened HnswInvariant
  import opened HnswRuns
  import opened HnswExact
  import opened HnswSmall
  import Q = HnswQuery
  import N = HnswNeighbors

  /** A square root, where it is one. */
  ghost predicate IsSqrt(sqrt: real -> real) {
    forall x :: x >= 0.0 ==> IsRoot(sqrt(x), x)
  }

  ghost predicate Comparable(a: Cosine.Vector, b: Cosine.Vector) {
    |a| == |b| && NormSq(a) != 0.0 && NormSq(b) != 0.0
  }

  lemma SqrtIsRoot(sqrt: real -> real, a: Cosine.Vector, b: Cosine.Vector)
    requires IsSqrt(sqrt)
    ensures Roots(sqrt, a, b)
  {
    NormNotNegative(a, |a|);
    NormNotNegative(b, |b|);
  }

  /** What CosineDistance computes. */
  ghost predicate IsDistance(metric: Metric, sqrt: real -> real) {
    forall a, b :: Comparable(a, b) && Roots(sqrt, a, b) ==> metric(a, b) == 1.0 - CosineOf(a, b, sqrt)
  }

  /** What CosineSimilarity computes. */
  ghost predicate IsSimilarity(kernel: TopK.Kernel, query: Cosine.Vector, sqrt: real -> real) {
    forall e: TopK.Entry :: Comparable(query, e.vector) && Roots(sqrt, query, e.vector) ==>
      kernel(e) == Score(CosineOf(query, e.vector, sqrt))
  }

  /** The entry of a node, as the store has it. */
  function EntryOf(s: State, i: NodeId): TopK.Entry
    requires |s.reverseMap| == |s.graph| && 0 <= i < |s.graph|
  {
    TopK.Entry(s.reverseMap[i], s.graph[i].vector, s.graph[i].metadata)
  }

  /** The live entries, in some order. */
  ghost predicate LiveEntries(s: State, nodes: seq<NodeId>, entries: seq<TopK.Entry>) {
    && |s.reverseMap| == |s.graph| && |entries| == |nodes|
    && Distinct(nodes) && ToSet(nodes) == AllLive(s.graph)
    && forall i :: 0 <= i < |nodes| ==> 0 <= nodes[i] < |s.graph| && entries[i] == EntryOf(s, nodes[i])
  }

  /** How the scan scores the entry of a node, and the search its hit. */
  ghost function Scored(metric: Metric, s: State, query: Cosine.Vector, i: NodeId): TopK.Result
    requires |s.reverseMap| == |s.graph| && 0 <= i < |s.graph|
  {
    TopK.Result(s.reverseMap[i], 1.0 - metric(query, s.graph[i].vector), s.graph[i].metadata)
  }

  /** The kernel scores every entry as the metric does. */
  ghost predicate Scores(metric: Metric, s: State, query: Cosine.Vector, kernel: TopK.Kernel, nodes: seq<NodeId>,
                         entries: seq<TopK.Entry>)
    requires |s.reverseMap| == |s.graph| && |entries| == |nodes|
  {
    forall i :: 0 <= i < |nodes| ==>
      0 <= nodes[i] < |s.graph| && TopK.Scored(kernel, entries[i]) == [Scored(metric, s, query, nodes[i])]
  }

  ghost function ScoredAll(metric: Metric, s: State, query: Cosine.Vector, nodes: seq<NodeId>): seq<TopK.Result>
    requires |s.reverseMap| == |s.graph| && forall i :: i in nodes ==> 0 <= i < |s.graph|
  {
    seq(|nodes|, k requires 0 <= k < |nodes| => assert nodes[k] in nodes; Scored(metric, s, query, nodes[k]))
  }

  lemma {:induction false} BagIsScored(metric: Metric, s: State, query: Cosine.Vector, kernel: TopK.Kernel,
                                       nodes: seq<NodeId>, entries: seq<TopK.Entry>)
    requires |s.reverseMap| == |s.graph| && |entries| == |nodes|
    requires Scores(metric, s, query, kernel, nodes, entries) && forall i :: i in nodes ==> 0 <= i < |s.graph|
    ensures TopK.Bag(kernel, entries) == multiset(ScoredAll(metric, s, query, nodes))
  {
    hide Scored, TopK.Scored;
    var all := ScoredAll(metric, s, query, nodes);
    if nodes != [] {
      var n := |nodes| - 1;
      assert forall i :: i in nodes[..n] ==> i in nodes;
      assert nodes[n] in nodes;
      BagIsScored(metric, s, query, kernel, nodes[..n], entries[..n]);
      assert all == ScoredAll(metric, s, query, nodes[..n]) + [Scored(metric, s, query, nodes[n])];
      assert TopK.Scored(kernel, entries[n]) == [Scored(metric, s, query, nodes[n])];
    }
  }

  /** Live nodes have different keys. */
  lemma KeysDiffer(s: State, i: NodeId, j: NodeId)
    requires KeysOk(s) && i in AllLive(s.graph) && j in AllLive(s.graph)
    ensures 0 <= i < |s.graph| && 0 <= j < |s.graph| && (s.reverseMap[i] == s.reverseMap[j] ==> i == j)
  {
  }

  lemma {:induction false} OnceEach(metric: Metric, s: State, query: Cosine.Vector, nodes: seq<NodeId>, i: NodeId)
    requires KeysOk(s) && Distinct(nodes) && ToSet(nodes) <= AllLive(s.graph) && i in AllLive(s.graph)
    ensures 0 <= i < |s.graph| && forall j :: j in nodes ==> 0 <= j < |s.graph|
    ensures multiset(ScoredAll(metric, s, query, nodes))[Scored(metric, s, query, i)] == if i in nodes then 1 else 0
  {
    forall j | j in nodes ensures 0 <= j < |s.graph| {
      assert j in ToSet(nodes);
    }
    if nodes != [] {
      var n := |nodes| - 1;
      assert nodes == nodes[..n] + [nodes[n]];
      assert nodes[n] in ToSet(nodes) && ToSet(nodes[..n]) <= ToSet(nodes);
      OnceEach(metric, s, query, nodes[..n], i);
      KeysDiffer(s, i, nodes[n]);
      assert ScoredAll(metric, s, query, nodes)
          == ScoredAll(metric, s, query, nodes[..n]) + [Scored(metric, s, query, nodes[n])];
    }
  }

  lemma InScored(metric: Metric, s: State, query: Cosine.Vector, nodes: seq<NodeId>, x: TopK.Result) returns (i: NodeId)
    requires |s.reverseMap| == |s.graph| && forall i :: i in nodes ==> 0 <= i < |s.graph|
    requires x in multiset(ScoredAll(metric, s, query, nodes))
    ensures i in nodes && 0 <= i < |s.graph| && x == Scored(metric, s, query, i)
  {
    var all := ScoredAll(metric, s, query, nodes);
    var k :| 0 <= k < |all| && all[k] == x;
    i := nodes[k];
  }

  /** All that is scored by the search is scored by the scan. */
  lemma HitsAreScanned(metric: Metric, s: State, query: Cosine.Vector, ids: seq<NodeId>, nodes: seq<NodeId>)
    requires KeysOk(s) && Distinct(ids) && ToSet(ids) <= AllLive(s.graph)
    requires Distinct(nodes) && ToSet(nodes) == AllLive(s.graph)
    ensures forall i :: i in ids || i in nodes ==> 0 <= i < |s.graph|
    ensures multiset(ScoredAll(metric, s, query, ids)) <= multiset(ScoredAll(metric, s, query, nodes))
  {
    hide Scored, KeysOk;
    InLive(s.graph, ids);
    InLive(s.graph, nodes);
    KeysPair(s);
    var some, all := multiset(ScoredAll(metric, s, query, ids)), multiset(ScoredAll(metric, s, query, nodes));
    forall x | x in some ensures some[x] <= all[x] {
      var i := InScored(metric, s, query, ids, x);
      assert i in ToSet(ids) && i in AllLive(s.graph) && i in ToSet(nodes);
      OnceEach(metric, s, query, ids, i);
      OnceEach(metric, s, query, nodes, i);
    }
  }

  lemma InLive(g: Graph, ids: seq<NodeId>)
    requires ToSet(ids) <= AllLive(g)
    ensures forall i :: i in ids ==> 0 <= i < |g|
  {
    forall i | i in ids ensures 0 <= i < |g| {
      assert i in ToSet(ids);
    }
  }

  lemma KeysPair(s: State)
    requires KeysOk(s)
    ensures |s.reverseMap| == |s.graph|
  {
  }

  /** What the search left out scores no more than what it reports. */
  lemma LeftOutIsLower(metric: Metric, s: State, query: Cosine.Vector, hits: seq<Item>, nodes: seq<NodeId>, K: nat,
                       x: TopK.Result, y: TopK.Result)
    requires KeysOk(s) && NearestOf(View(metric, s.graph, query, 0), hits, AllLive(s.graph), K)
    requires Distinct(nodes) && ToSet(nodes) == AllLive(s.graph)
    requires forall i :: i in Ids(hits) || i in nodes ==> 0 <= i < |s.graph|
    requires x in multiset(ScoredAll(metric, s, query, Ids(hits)))
    requires y in multiset(ScoredAll(metric, s, query, nodes)) - multiset(ScoredAll(metric, s, query, Ids(hits)))
    ensures y.score <= x.score
  {
    hide KeysOk;
    KeysPair(s);
    var v, ids := View(metric, s.graph, query, 0), Ids(hits);
    var i := InScored(metric, s, query, ids, x);
    var j := InScored(metric, s, query, nodes, y);
    HitIdsAreLive(v, hits, K);
    assert j in ToSet(nodes) && ToSet(ids) <= AllLive(s.graph);
    OnceEach(metric, s, query, nodes, j);
    OnceEach(metric, s, query, ids, j);
    assert j !in ids;
    var k :| 0 <= k < |ids| && ids[k] == i;
    assert hits[k] in hits && v.Dist(i) <= v.Dist(j);
  }

  lemma HitIdsAreLive(v: View, hits: seq<Item>, K: nat)
    requires NearestOf(v, hits, AllLive(v.graph), K)
    ensures Distinct(Ids(hits)) && ToSet(Ids(hits)) <= AllLive(v.graph)
  {
    forall i | i in Ids(hits) ensures i in AllLive(v.graph) {
      var k :| 0 <= k < |hits| && Ids(hits)[k] == i;
      assert hits[k] in hits;
    }
  }

  lemma HitsDescend(metric: Metric, s: State, query: Cosine.Vector, hits: seq<Item>, K: nat)
    requires |s.reverseMap| == |s.graph| && NearestOf(View(metric, s.graph, query, 0), hits, AllLive(s.graph), K)
    requires forall i :: i in Ids(hits) ==> 0 <= i < |s.graph|
    ensures |hits| == Min(K, |AllLive(s.graph)|)
    ensures TopK.Descending(ScoredAll(metric, s, query, Ids(hits)))
  {
    var r := ScoredAll(metric, s, query, Ids(hits));
    forall i, j | 0 <= i < j < |r| ensures r[j].score <= r[i].score {
      assert hits[i] in hits && hits[j] in hits;
    }
  }

  /** An exact search is a top-K list of the scan. */
  lemma HitsAreTop(metric: Metric, s: State, query: Cosine.Vector, kernel: TopK.Kernel, nodes: seq<NodeId>,
                   entries: seq<TopK.Entry>, hits: seq<Item>, K: nat)
    requires KeysOk(s) && LiveEntries(s, nodes, entries) && Scores(metric, s, query, kernel, nodes, entries)
    requires NearestOf(View(metric, s.graph, query, 0), hits, AllLive(s.graph), K)
    ensures forall i :: i in Ids(hits) ==> 0 <= i < |s.graph|
    ensures TopK.Top(ScoredAll(metric, s, query, Ids(hits)), TopK.Bag(kernel, entries), K)
  {
    hide KeysOk, Scores, TopK.Bag, AllLive, NearestOf, Scored, Distinct;
    var v, ids := View(metric, s.graph, query, 0), Ids(hits);
    HitIdsAreLive(v, hits, K);
    HitsAreScanned(metric, s, query, ids, nodes);
    BagIsScored(metric, s, query, kernel, nodes, entries);
    var r, all := ScoredAll(metric, s, query, ids), ScoredAll(metric, s, query, nodes);
    N.DistinctSize(nodes);
    HitsDescend(metric, s, query, hits, K);
    assert |multiset(r)| == |hits| && |multiset(all)| == |nodes|;
    forall x: TopK.Result, y: TopK.Result | x in multiset(r) && y in multiset(all) - multiset(r)
      ensures y.score <= x.score
    {
      LeftOutIsLower(metric, s, query, hits, nodes, K, x, y);
    }
  }

  /** Of vectors of one dimension, none zero, kernel and metric say the same. */
  lemma CosineScores(metric: Metric, sqrt: real -> real, s: State, query: Cosine.Vector, kernel: TopK.Kernel,
                     nodes: seq<NodeId>, entries: seq<TopK.Entry>)
    requires IsSqrt(sqrt) && IsDistance(metric, sqrt) && IsSimilarity(kernel, query, sqrt)
    requires LiveEntries(s, nodes, entries)
    requires forall i :: i in AllLive(s.graph) ==> 0 <= i < |s.graph| && Comparable(query, s.graph[i].vector)
    ensures Scores(metric, s, query, kernel, nodes, entries)
  {
    hide IsSqrt, CosineOf, NormSq, IsRoot;
    forall i | 0 <= i < |nodes| ensures TopK.Scored(kernel, entries[i]) == [Scored(metric, s, query, nodes[i])] {
      assert nodes[i] in ToSet(nodes);
      SqrtIsRoot(sqrt, query, s.graph[nodes[i]].vector);
      assert kernel(entries[i]) == Score(CosineOf(query, s.graph[nodes[i]].vector, sqrt));
    }
  }

  /** After every history of inserts, re-inserts and deletes with at most 2M+1 nodes, no live vector
      zero and all of the dimension of the query: a search as wide as the index is large reports
      as many hits, with the same scores in the same order, as the scan of the live entries finds,
      whatever levels were drawn, and however many workers scan. */
  lemma SmallSearchMatchesScan(metric: Metric, sqrt: real -> real, m: int, efConstruction: int, run: Trail<Event>,
                               query: Cosine.Vector, K: nat, ef: int, log: SearchLog, hits: seq<Item>,
                               kernel: TopK.Kernel, nodes: seq<NodeId>, entries: seq<TopK.Entry>,
                               found: seq<TopK.Result>)
    requires IsSqrt(sqrt) && IsDistance(metric, sqrt) && IsSimilarity(kernel, query, sqrt)
    requires Runs(metric, Empty(m, efConstruction), run)
    requires var s := Last(Empty(m, efConstruction), run);
      && 0 < |s.graph| <= 2 * Built(m, efConstruction).m + 1
      && (K >= |s.graph| || (if ef <= 0 then s.ef else ef) >= |s.graph|)
      && Searches(metric, s, query, K, ef, log, hits)
      && LiveEntries(s, nodes, entries)
      && forall i :: i in AllLive(s.graph) ==> 0 <= i < |s.graph| && Comparable(query, s.graph[i].vector)
    requires TopK.Top(found, TopK.Bag(kernel, entries), K)
    ensures var s := Last(Empty(m, efConstruction), run);
      && (forall h :: h in hits ==> 0 <= h.id < |s.graph|)
      && var results := Q.Report(s, hits);
         |results| == |found| && forall i :: 0 <= i < |found| ==> results[i].score == found[i].score
  {
    hide Runs, Searches, LiveEntries, Scores, IsSqrt, IsDistance, IsSimilarity, NearestOf, WellFormed, TopK.Top,
      TopK.Bag;
    var s := Last(Empty(m, efConstruction), run);
    RunsAreWellFormed(metric, m, efConstruction, run);
    WellFormedKeys(s);
    SmallIndexSearchIsExact(metric, m, efConstruction, run, query, K, ef, log, hits);
    CosineScores(metric, sqrt, s, query, kernel, nodes, entries);
    HitsAreTop(metric, s, query, kernel, nodes, entries, hits, K);
    KeysPair(s);
    var r := ScoredAll(metric, s, query, Ids(hits));
    TopK.TopScoresAreUnique(r, found, TopK.Bag(kernel, entries), K);
    ReportIsScored(metric, s, query, hits, K);
  }

  lemma WellFormedKeys(s: State)
    requires WellFormed(s)
    ensures KeysOk(s)
  {
  }

  lemma ReportIsScored(metric: Metric, s: State, query: Cosine.Vector, hits: seq<Item>, K: nat)
    requires |s.reverseMap| == |s.graph| && NearestOf(View(metric, s.graph, query, 0), hits, AllLive(s.graph), K)
    requires forall i :: i in Ids(hits) ==> 0 <= i < |s.graph|
    ensures forall h :: h in hits ==> 0 <= h.id < |s.graph|
    ensures var results, r := Q.Report(s, hits), ScoredAll(metric, s, query, Ids(hits));
      |results| == |r| && forall i :: 0 <= i < |r| ==> results[i].score == r[i].score
  {
    forall h | h in hits ensures 0 <= h.id < |s.graph| {
      var k :| 0 <= k < |hits| && hits[k] == h;
      assert Ids(hits)[k] in Ids(hits);
    }
    forall i | 0 <= i < |hits| ensures hits[i] in hits {}
  }
}
