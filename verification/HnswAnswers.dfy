/** What a search promises, said of the index and the query alone: where the descent goes, how
    wide the ground layer is searched, and how many hits there are. */
module HnswAnswers {
  import opened Sets
  import opened HnswGraph
  import opened HnswSpec
  import opened HnswInvariant
  import opened HnswExact

  // ---------- the descent ----------

  /** From one node to the next down a layer: reached on the layer, no further from the query, and
      without a neighbour on the layer that is closer. */
  ghost predicate Settles(v: View, from: NodeId, to: NodeId) {
    && 0 <= to < |v.graph| && Reaches(v.graph, v.layer, {from}, to) && v.Dist(to) <= v.Dist(from)
    && forall n :: n in v.Succ(to) ==> v.Dist(to) <= v.Dist(n)
  }

  ghost predicate StopAt(metric: Metric, g: Graph, query: Vector, ep: NodeId, low: nat, stops: seq<NodeId>, k: nat)
    requires k < |stops|
  {
    Settles(View(metric, g, query, low + k), if k + 1 < |stops| then stops[k + 1] else ep, stops[k])
  }

  /** Where the descent has come on each layer from `top` down to `low`, lowest first. */
  ghost predicate Stops(metric: Metric, g: Graph, query: Vector, ep: NodeId, top: int, low: nat, stops: seq<NodeId>) {
    && |stops| == Max(top + 1 - low, 0)
    && forall k :: 0 <= k < |stops| ==> StopAt(metric, g, query, ep, low, stops, k)
  }

  function Landing(ep: NodeId, stops: seq<NodeId>): NodeId {
    if stops == [] then ep else stops[0]
  }

  lemma HopSettles(v: View, from: NodeId, hop: Hop)
    requires 0 <= from < |v.graph| && v.Explores({from}, 1, hop.trail, {hop.node})
    ensures Settles(v, from, hop.node) && 0 <= hop.node < |v.graph|
  {
    HopIsLocalMinimum(v, from, hop.trail, hop.node);
    v.SeenHolds({from}, hop.trail, from);
    assert hop.node in {hop.node};
    v.SeenIsReached({from}, 1, hop.trail, hop.node);
  }

  lemma {:induction false} DescentSettles(metric: Metric, g: Graph, query: Vector, ep: NodeId, top: nat, low: nat,
                                          hops: Trail<Hop>) returns (stops: seq<NodeId>)
    requires 0 <= ep < |g| && Descends(Greedy(metric, g, query), ep, top, low, hops)
    ensures Stops(metric, g, query, ep, top, low, stops)
    ensures Landing(ep, stops) == Reach(ep, hops) && 0 <= Landing(ep, stops) < |g|
    decreases top + 1 - low
  {
    hide Settles, View.Explores;
    stops := [];
    if low <= top {
      var above := DescentSettles(metric, g, query, ep, top, low + 1, hops.before);
      HopSettles(View(metric, g, query, low), Reach(ep, hops.before), hops.last);
      stops := [hops.last.node] + above;
      forall k | 0 <= k < |stops| ensures StopAt(metric, g, query, ep, low, stops, k) {
        if k > 0 {
          assert StopAt(metric, g, query, ep, low + 1, above, k - 1);
        }
      }
    }
  }

  // ---------- the ground layer ----------

  /** How many nodes the search of the ground layer keeps. */
  function Width(efDefault: int, K: nat, ef: int): nat {
    Max(Max(if ef <= 0 then efDefault else ef, K), 1)
  }

  /** So many of the nodes that can be reached are found, or all; no neighbour of a found one is
      missed, unless all are no further than it; and for each start one is no further than it. */
  ghost predicate Covers(v: View, starts: set<NodeId>, width: nat, found: set<NodeId>) {
    var all := v.Reached(starts);
    && found <= all && |found| == Min(width, |all|)
    && (forall f, n :: f in found && n in v.Succ(f) && n !in found ==>
          |found| == width && forall b :: b in found ==> v.Dist(b) <= v.Dist(n))
    && forall s :: s in starts ==> exists f :: f in found && v.Dist(f) <= v.Dist(s)
  }

  /** A search sees only what can be reached, and all of it unless it keeps as much as it may. */
  lemma FoundIsReached(v: View, starts: set<NodeId>, width: nat, trail: Trail<NodeId>, found: set<NodeId>)
    requires v.InRange(starts) && width >= 1 && v.Explores(starts, width, trail, found)
    ensures found <= v.Reached(starts) && |found| == Min(width, |v.Reached(starts)|)
  {
    hide Reaches, View.Succ;
    var all, seen := v.Reached(starts), v.Seen(starts, trail);
    v.SeenHolds(starts, trail, 0);
    forall i | i in seen ensures i in all {
      v.SeenIsReached(starts, width, trail, i);
    }
    SubsetSize(seen, all);
    if |seen| < width {
      SubsetOfSameSize(found, seen);
      v.KeepingAllIsExhaustive(starts, width, trail, found);
      assert found == all;
    }
  }

  lemma ExploredCovers(v: View, starts: set<NodeId>, width: nat, trail: Trail<NodeId>, found: set<NodeId>)
    requires v.InRange(starts) && width >= 1 && v.Explores(starts, width, trail, found)
    ensures Covers(v, starts, width, found)
  {
    hide View.Explores, View.Reached, View.Succ;
    FoundIsReached(v, starts, width, trail, found);
    forall s | s in starts ensures exists f :: f in found && v.Dist(f) <= v.Dist(s) {
      v.NeverWorseThanStart(starts, width, trail, found, s);
    }
    forall f, n | f in found && n in v.Succ(f) && n !in found
      ensures |found| == width && forall b :: b in found ==> v.Dist(b) <= v.Dist(n)
    {
      v.LocallyOptimal(starts, width, trail, found, f, n);
    }
  }

  /** The hits are the K nearest live nodes of so many found from where the descent lands. */
  ghost predicate Answers(metric: Metric, s: State, query: Vector, K: nat, ef: int, stops: seq<NodeId>,
                          found: set<NodeId>, hits: seq<Item>) {
    var v := View(metric, s.graph, query, 0);
    && Stops(metric, s.graph, query, s.entryPoint, s.maxLayer, 1, stops)
    && Covers(v, {Landing(s.entryPoint, stops)}, Width(s.ef, K, ef), found)
    && NearestOf(v, hits, LiveIn(s.graph, found), K)
  }

  lemma SearchAnswers(metric: Metric, s: State, query: Vector, K: nat, ef: int, log: SearchLog, hits: seq<Item>)
    returns (stops: seq<NodeId>)
    requires 0 <= s.entryPoint < |s.graph| && Searches(metric, s, query, K, ef, log, hits)
    ensures Answers(metric, s, query, K, ef, stops, ToSet(Ids(log.found)), hits)
    ensures Landing(s.entryPoint, stops) == Reach(s.entryPoint, log.hops)
  {
    var v := View(metric, s.graph, query, 0);
    stops := DescentSettles(metric, s.graph, query, s.entryPoint, s.maxLayer, 1, log.hops);
    ExploredCovers(v, {Landing(s.entryPoint, stops)}, Width(s.ef, K, ef), log.trail, ToSet(Ids(log.found)));
    HitsAreNearestFound(metric, s, query, K, ef, log, hits);
  }

  /** Without tombstones in reach exactly min(K, nodes in reach) nodes are hit; each tombstone costs
      at most one hit. */
  lemma AnswersFill(metric: Metric, s: State, query: Vector, K: nat, ef: int, stops: seq<NodeId>, found: set<NodeId>,
                    hits: seq<Item>)
    requires Answers(metric, s, query, K, ef, stops, found, hits)
    ensures var all := View(metric, s.graph, query, 0).Reached({Landing(s.entryPoint, stops)});
      var live := LiveIn(s.graph, all);
      Min(K, Min(Width(s.ef, K, ef), |all|) - |all - live|) <= |hits| <= Min(K, |live|)
  {
    hide Stops, View.Reached, Landing, LiveIn, View.Succ;
    var all := View(metric, s.graph, query, 0).Reached({Landing(s.entryPoint, stops)});
    LiveOfFound(s.graph, found, all);
  }

  lemma LiveOfFound(g: Graph, found: set<NodeId>, all: set<NodeId>)
    requires found <= all
    ensures var live, kept := LiveIn(g, all), LiveIn(g, found);
      |found| - |all - live| <= |kept| <= |live| && |kept| <= |found|
  {
    var live, kept := LiveIn(g, all), LiveIn(g, found);
    SubsetSize(kept, live);
    SubsetSize(found - kept, all - live);
    assert found == kept + (found - kept);
  }
}
