/** What Search returns: distinct live keys in order; never worse down the layers; and, while
    no ground-layer list can overflow, exactly the nearest live nodes. */
module HnswExact {
  import opened HnswGraph
  import opened HnswNeighbors
  import opened HnswSpec
  import opened HnswInvariant
  import opened HnswRuns

  // ---------- the descent ----------

  /** One hop never moves away from the query, and lands where no link leads closer. */
  lemma HopIsLocalMinimum(v: View, cur: NodeId, trail: Trail<NodeId>, next: NodeId)
    requires 0 <= cur < |v.graph| && v.Explores({cur}, 1, trail, {next})
    ensures v.Dist(next) <= v.Dist(cur) && 0 <= next < |v.graph|
    ensures forall n :: n in v.Succ(next) ==> v.Dist(next) <= v.Dist(n)
  {
    v.NeverWorseThanStart({cur}, 1, trail, {next}, cur);
    v.SeenHolds({cur}, trail, cur);
    assert next in {next};
    forall n | n in v.Succ(next) ensures v.Dist(next) <= v.Dist(n) {
      v.LocallyOptimal({cur}, 1, trail, {next}, next, n);
    }
  }

  /** Down the layers the distance to the query never increases. */
  lemma {:induction false} DescentNeverRises(metric: Metric, g: Graph, query: Vector, ep: NodeId, top: nat, low: nat,
                                             hops: Trail<Hop>)
    requires 0 <= ep < |g| && Descends(Greedy(metric, g, query), ep, top, low, hops)
    ensures 0 <= Reach(ep, hops) < |g|
    ensures metric(query, g[Reach(ep, hops)].vector) <= metric(query, g[ep].vector)
    decreases top + 1 - low
  {
    if low <= top {
      DescentNeverRises(metric, g, query, ep, top, low + 1, hops.before);
      HopIsLocalMinimum(View(metric, g, query, low), Reach(ep, hops.before), hops.last.trail, hops.last.node);
    }
  }

  // ---------- collecting the hits ----------

  ghost predicate IsLive(g: Graph, i: NodeId) {
    0 <= i < |g| && !g[i].deleted
  }

  ghost function LiveAmong(g: Graph, items: seq<Item>, i: nat): set<NodeId>
    requires i <= |items|
  {
    if i == 0 then {}
    else if IsLive(g, items[i - 1].id) then LiveAmong(g, items, i - 1) + {items[i - 1].id}
    else LiveAmong(g, items, i - 1)
  }

  /** `hits` are K nearest of the live nodes in `among`, or all of them, nearest first. */
  ghost predicate NearestOf(v: View, hits: seq<Item>, among: set<NodeId>, K: nat) {
    && |hits| == Min(K, |among|)
    && Distinct(Ids(hits))
    && (forall h :: h in hits ==> h.id in among && h.dist == v.Dist(h.id))
    && (forall j, k :: 0 <= j < k < |hits| ==> hits[j].dist <= hits[k].dist)
    && (forall h, x :: h in hits && x in among && x !in Ids(hits) ==> h.dist <= v.Dist(x))
  }

  lemma {:induction false} LiveAmongAre(g: Graph, items: seq<Item>, i: nat, x: NodeId)
    requires i <= |items|
    ensures x in LiveAmong(g, items, i) <==> IsLive(g, x) && exists k :: 0 <= k < i && items[k].id == x
  {
    if i > 0 {
      LiveAmongAre(g, items, i - 1, x);
      if x == items[i - 1].id && IsLive(g, x) {
        assert items[i - 1].id == x;
      }
    }
  }

  /** Everything live further up the list is at least as far as the item at i. */
  lemma LiveAreFurther(v: View, found: set<NodeId>, items: seq<Item>, i: nat, x: NodeId)
    requires Drains(v, found, items) && i < |items| && x in LiveAmong(v.graph, items, i)
    ensures items[i].dist <= v.Dist(x) && x != items[i].id
  {
    LiveAmongAre(v.graph, items, i, x);
    var k :| 0 <= k < i && items[k].id == x;
    assert Ids(items)[k] != Ids(items)[i];
  }

  lemma PrependNearest(v: View, x: Item, hits: seq<Item>, among: set<NodeId>, K: nat)
    requires NearestOf(v, hits, among, K) && x.id !in among && x.dist == v.Dist(x.id)
    requires forall y :: y in among ==> x.dist <= v.Dist(y)
    ensures NearestOf(v, [x] + hits, among + {x.id}, K + 1)
  {
    var hits' := [x] + hits;
    IdsConcat([x], hits);
    assert Ids(hits') == [x.id] + Ids(hits);
    forall k | 0 <= k < |hits| ensures Ids(hits)[k] in among && x.dist <= hits[k].dist {
      assert hits[k] in hits;
    }
  }

  lemma {:induction false} LiveAreNearest(v: View, found: set<NodeId>, items: seq<Item>, i: nat, K: nat)
    requires Drains(v, found, items) && i <= |items|
    ensures NearestOf(v, Live(v.graph, items, i, K), LiveAmong(v.graph, items, i), K)
  {
    if i > 0 && K > 0 {
      var x := items[i - 1];
      if IsLive(v.graph, x.id) {
        LiveAreNearest(v, found, items, i - 1, K - 1);
        forall y | y in LiveAmong(v.graph, items, i - 1) ensures x.dist <= v.Dist(y) && y != x.id {
          LiveAreFurther(v, found, items, i - 1, y);
        }
        PrependNearest(v, x, Live(v.graph, items, i - 1, K - 1), LiveAmong(v.graph, items, i - 1), K - 1);
      } else {
        LiveAreNearest(v, found, items, i - 1, K);
      }
    }
  }

  ghost function LiveIn(g: Graph, found: set<NodeId>): set<NodeId> {
    set x | x in found && IsLive(g, x)
  }

  /** Search returns the K nearest live nodes of those its ground-layer search keeps. */
  lemma HitsAreNearestFound(metric: Metric, s: State, query: Vector, K: nat, ef: int, log: SearchLog, hits: seq<Item>)
    requires Searches(metric, s, query, K, ef, log, hits)
    ensures NearestOf(View(metric, s.graph, query, 0), hits, LiveIn(s.graph, ToSet(Ids(log.found))), K)
  {
    var v, items, found := View(metric, s.graph, query, 0), log.found, ToSet(Ids(log.found));
    LiveAreNearest(v, found, items, |items|, K);
    forall x ensures x in LiveAmong(s.graph, items, |items|) <==> x in LiveIn(s.graph, found) {
      LiveAmongAre(s.graph, items, |items|, x);
      if x in found {
        var k :| 0 <= k < |items| && Ids(items)[k] == x;
        assert items[k].id == x;
      }
      if k :| 0 <= k < |items| && items[k].id == x {
        assert Ids(items)[k] == x;
      }
    }
    assert LiveAmong(s.graph, items, |items|) == LiveIn(s.graph, found);
  }

  /** At most K hits, nearest first, with distinct keys, each leading back to its own node. */
  ghost predicate DistinctLiveHits(s: State, K: nat, hits: seq<Item>) {
    && |s.reverseMap| == |s.graph| && |hits| <= K
    && (forall h :: h in hits ==>
         0 <= h.id < |s.graph| && s.reverseMap[h.id] in s.idMap && s.idMap[s.reverseMap[h.id]] == h.id)
    && (forall j, k :: 0 <= j < k < |hits| ==>
         s.reverseMap[hits[j].id] != s.reverseMap[hits[k].id] && hits[j].dist <= hits[k].dist)
  }

  lemma SearchHitsDistinctLiveKeys(metric: Metric, s: State, query: Vector, K: nat, ef: int, log: SearchLog,
                                   hits: seq<Item>)
    requires WellFormed(s) && Searches(metric, s, query, K, ef, log, hits)
    ensures DistinctLiveHits(s, K, hits)
  {
    HitsAreNearestFound(metric, s, query, K, ef, log, hits);
    forall h | h in hits ensures IsLive(s.graph, h.id) {}
    forall j, k | 0 <= j < k < |hits| ensures s.reverseMap[hits[j].id] != s.reverseMap[hits[k].id] {
      assert hits[j] in hits && hits[k] in hits && Ids(hits)[j] != Ids(hits)[k];
    }
  }

  /** After any history, deletions and re-insertions included, a search hits distinct live keys. */
  lemma HitsHaveDistinctLiveKeys(metric: Metric, m: int, efConstruction: int, run: Trail<Event>, query: Vector, K: nat,
                                 ef: int, log: SearchLog, hits: seq<Item>)
    requires Runs(metric, Empty(m, efConstruction), run)
    requires Searches(metric, Last(Empty(m, efConstruction), run), query, K, ef, log, hits)
    ensures DistinctLiveHits(Last(Empty(m, efConstruction), run), K, hits)
  {
    RunsAreWellFormed(metric, m, efConstruction, run);
    SearchHitsDistinctLiveKeys(metric, Last(Empty(m, efConstruction), run), query, K, ef, log, hits);
  }
}
