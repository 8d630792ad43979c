/** The layered graph of the HNSW index as a value, and what a best-first search of one
    of its layers may find.  Every statement here holds for an arbitrary distance. */
module HnswGraph {
  import opened Sets

  type Vector = seq<real>
  type Metadata = map<string, string>
  type Metric = (Vector, Vector) -> real

  /** A node's position in the index (uint32 in the source). */
  type NodeId = int

  datatype Item = Item(id: NodeId, dist: real)

  datatype Vertex = Vertex(vector: Vector, metadata: Metadata, links: seq<seq<NodeId>>, deleted: bool) {
    function Level(): int { |links| - 1 }
  }

  type Graph = seq<Vertex>

  /** The two orders of heap.go: candidates by smallest distance, the found set by largest. */
  function Nearer(it: Item): real { it.dist }

  function Further(it: Item): real { -it.dist }

  function Max(a: int, b: int): int { if a < b then b else a }

  function Min(a: int, b: int): int { if a < b then a else b }

  function ToSet<T>(s: seq<T>): set<T> {
    set x | x in s
  }

  ghost predicate Distinct<T>(s: seq<T>) {
    forall i, j :: 0 <= i < j < |s| ==> s[i] != s[j]
  }

  function Ids(items: seq<Item>): (r: seq<NodeId>)
    ensures |r| == |items| && forall k :: 0 <= k < |r| ==> r[k] == items[k].id
  {
    seq(|items|, k requires 0 <= k < |items| => items[k].id)
  }

  /** GetLinks: empty above the level of the node. */
  function LinksAt(g: Graph, i: NodeId, layer: nat): seq<NodeId> {
    if 0 <= i < |g| && layer < |g[i].links| then g[i].links[layer] else []
  }

  /** A sequence built one step at a time, latest step outermost. */
  datatype Trail<T> = Start | Then(before: Trail<T>, last: T) {
    ghost function Nodes(): set<T> {
      if Start? then {} else before.Nodes() + {last}
    }
  }

  function InGraph(g: Graph, entries: seq<NodeId>): set<NodeId> {
    set e | e in entries && 0 <= e < |g|
  }

  /** The neighbours of node i at one layer. */
  function Out(g: Graph, layer: nat, i: NodeId): set<NodeId> {
    InGraph(g, LinksAt(g, i, layer))
  }

  ghost predicate IsPath(g: Graph, layer: nat, p: seq<NodeId>) {
    p != [] && forall k :: 0 < k < |p| ==> p[k] in Out(g, layer, p[k - 1])
  }

  /** i can be reached from a node of `starts` along the links of the layer. */
  ghost predicate Reaches(g: Graph, layer: nat, starts: set<NodeId>, i: NodeId) {
    exists p :: IsPath(g, layer, p) && p[0] in starts && p[|p| - 1] == i
  }

  ghost predicate Closed(g: Graph, layer: nat, s: set<NodeId>) {
    forall i :: i in s ==> Out(g, layer, i) <= s
  }

  lemma ReachStep(g: Graph, layer: nat, starts: set<NodeId>, i: NodeId, j: NodeId)
    requires Reaches(g, layer, starts, i) && j in Out(g, layer, i)
    ensures Reaches(g, layer, starts, j)
  {
    var p :| IsPath(g, layer, p) && p[0] in starts && p[|p| - 1] == i;
    assert IsPath(g, layer, p + [j]) && (p + [j])[0] in starts && (p + [j])[|p|] == j;
  }

  lemma ReachSelf(g: Graph, layer: nat, starts: set<NodeId>, i: NodeId)
    requires i in starts
    ensures Reaches(g, layer, starts, i)
  {
    assert IsPath(g, layer, [i]) && [i][0] in starts && [i][0] == i;
  }

  lemma {:induction false} ClosedHoldsPath(g: Graph, layer: nat, s: set<NodeId>, p: seq<NodeId>)
    requires Closed(g, layer, s) && IsPath(g, layer, p) && p[0] in s
    ensures p[|p| - 1] in s
  {
    if |p| > 1 {
      var front := p[..|p| - 1];
      assert IsPath(g, layer, front);
      ClosedHoldsPath(g, layer, s, front);
      assert p[|p| - 1] in Out(g, layer, front[|front| - 1]);
    }
  }

  /** One layer of a graph as seen from a query vector. */
  datatype View = View(metric: Metric, graph: Graph, query: Vector, layer: nat) {

    function Dist(i: NodeId): real {
      if 0 <= i < |graph| then metric(query, graph[i].vector) else 0.0
    }

    function Succ(i: NodeId): set<NodeId> {
      Out(graph, layer, i)
    }

    function Starts(entries: seq<NodeId>): set<NodeId> {
      InGraph(graph, entries)
    }

    ghost function Reached(starts: set<NodeId>): set<NodeId> {
      set i | 0 <= i < |graph| && Reaches(graph, layer, starts, i)
    }

    /** `e` as a set of start nodes: nothing if it is out of range. */
    function One(e: NodeId): set<NodeId> {
      if 0 <= e < |graph| then {e} else {}
    }

    /** `seen` and the first j of `entries`. */
    ghost function With(seen: set<NodeId>, entries: seq<NodeId>, j: nat): set<NodeId>
      requires j <= |entries|
    {
      seen + Starts(entries[..j])
    }

    lemma WithNone(seen: set<NodeId>, entries: seq<NodeId>)
      ensures With(seen, entries, 0) == seen
    {
    }

    lemma WithOneMore(seen: set<NodeId>, entries: seq<NodeId>, j: nat)
      requires j < |entries|
      ensures With(seen, entries, j + 1) == With(seen, entries, j) + One(entries[j])
    {
      assert entries[..j + 1] == entries[..j] + [entries[j]];
    }

    lemma NoneMore(seen: set<NodeId>, e: NodeId)
      requires 0 <= e < |graph| ==> e in seen
      ensures seen + One(e) == seen
    {
    }

    lemma WithAll(seen: set<NodeId>, entries: seq<NodeId>)
      ensures With(seen, entries, |entries|) == seen + Starts(entries)
    {
      assert entries[..|entries|] == entries;
    }

    /** What has been visited once the nodes of `trail` have been expanded. */
    ghost function Seen(starts: set<NodeId>, trail: Trail<NodeId>): set<NodeId> {
      if trail.Start? then starts else Seen(starts, trail.before) + Succ(trail.last)
    }

    ghost function Closer(among: set<NodeId>, c: NodeId): set<NodeId> {
      set v | v in among && Dist(v) < Dist(c)
    }

    /** Each expanded node was the closest one visited but not yet expanded, and fewer
        than `cap` visited nodes were strictly closer than it. */
    ghost predicate BestFirst(starts: set<NodeId>, cap: nat, trail: Trail<NodeId>) {
      trail.Then? ==>
        var before, c, seen := trail.before.Nodes(), trail.last, Seen(starts, trail.before);
        && BestFirst(starts, cap, trail.before)
        && Nearest(c, seen - before)
        && |Closer(seen, c)| < cap
    }

    ghost predicate Furthest(f: NodeId, among: set<NodeId>) {
      f in among && forall b :: b in among ==> Dist(b) <= Dist(f)
    }

    ghost predicate Nearest(c: NodeId, among: set<NodeId>) {
      c in among && forall b :: b in among ==> Dist(c) <= Dist(b)
    }

    /** `best` is a choice of the `cap` closest nodes of `among`. */
    ghost predicate Closest(best: set<NodeId>, among: set<NodeId>, cap: nat) {
      && best <= among
      && |best| == Min(cap, |among|)
      && forall b, v :: b in best && v in among && v !in best ==> Dist(b) <= Dist(v)
    }

    /** The outcome of a search of this layer: `trail` is what it expanded, `found` what it kept. */
    ghost predicate Explores(starts: set<NodeId>, cap: nat, trail: Trail<NodeId>, found: set<NodeId>) {
      && BestFirst(starts, cap, trail)
      && Closest(found, Seen(starts, trail), cap)
      && found <= trail.Nodes()
    }

    /** The state of a search in progress: `pending` waits for expansion, `kept` is the result so far. */
    ghost predicate Frontier(seen: set<NodeId>, trail: Trail<NodeId>, pending: set<NodeId>, kept: set<NodeId>,
                             cap: nat) {
      && Closest(kept, seen, cap)
      && pending <= seen
      && trail.Nodes() <= seen - pending
      && kept <= pending + trail.Nodes()
    }

    lemma Keep(seen: set<NodeId>, trail: Trail<NodeId>, pending: set<NodeId>, kept: set<NodeId>, cap: nat, n: NodeId)
      requires Frontier(seen, trail, pending, kept, cap) && n !in seen && |kept| < cap
      ensures Frontier(seen + {n}, trail, pending + {n}, kept + {n}, cap)
    {
      SubsetOfSameSize(kept, seen);
    }

    lemma KeepAndEvict(seen: set<NodeId>, trail: Trail<NodeId>, pending: set<NodeId>, kept: set<NodeId>, cap: nat,
                       n: NodeId, w: NodeId)
      requires Frontier(seen, trail, pending, kept, cap) && n !in seen && |kept| == cap
      requires Furthest(w, kept + {n})
      ensures Frontier(seen + {n}, trail, pending + {n}, kept + {n} - {w}, cap)
    {
      SubsetSize(kept, seen);
      assert |kept + {n} - {w}| == cap;
    }

    lemma Reject(seen: set<NodeId>, trail: Trail<NodeId>, pending: set<NodeId>, kept: set<NodeId>, cap: nat,
                 n: NodeId, f: NodeId)
      requires Frontier(seen, trail, pending, kept, cap) && n !in seen && |kept| == cap
      requires Furthest(f, kept) && Dist(f) <= Dist(n)
      ensures Frontier(seen + {n}, trail, pending, kept, cap)
    {
      SubsetSize(kept, seen);
    }

    lemma ExpandIsBestFirst(starts: set<NodeId>, trail: Trail<NodeId>, pending: set<NodeId>, kept: set<NodeId>,
                            cap: nat, c: NodeId, f: NodeId)
      requires BestFirst(starts, cap, trail)
      requires Frontier(Seen(starts, trail), trail, pending, kept, cap)
      requires Nearest(c, pending) && Furthest(f, kept) && Dist(c) <= Dist(f)
      ensures BestFirst(starts, cap, Then(trail, c))
    {
      var seen := Seen(starts, trail);
      forall v | v in Closer(seen, c) ensures v in kept - {f} {}
      SubsetSize(Closer(seen, c), kept - {f});
      forall v | v in seen - trail.Nodes() ensures Dist(c) <= Dist(v) {
        assert v in pending || v !in kept;
      }
    }

    lemma Expand(starts: set<NodeId>, trail: Trail<NodeId>, pending: set<NodeId>, kept: set<NodeId>, cap: nat,
                 c: NodeId, f: NodeId)
      requires BestFirst(starts, cap, trail)
      requires Frontier(Seen(starts, trail), trail, pending, kept, cap)
      requires Nearest(c, pending) && Furthest(f, kept) && Dist(c) <= Dist(f)
      ensures BestFirst(starts, cap, Then(trail, c))
      ensures Frontier(Seen(starts, trail), Then(trail, c), pending - {c}, kept, cap)
      ensures Seen(starts, Then(trail, c)) == Seen(starts, trail) + Succ(c)
    {
      var seen, trail' := Seen(starts, trail), Then(trail, c);
      assert trail'.Nodes() == trail.Nodes() + {c};
      assert trail'.Nodes() <= seen - (pending - {c});
      assert kept <= (pending - {c}) + trail'.Nodes();
      ExpandIsBestFirst(starts, trail, pending, kept, cap, c, f);
    }

    /** The search may stop once the nearest pending node is further than all it keeps. */
    lemma Stop(starts: set<NodeId>, trail: Trail<NodeId>, pending: set<NodeId>, kept: set<NodeId>, cap: nat)
      requires BestFirst(starts, cap, trail)
      requires Frontier(Seen(starts, trail), trail, pending, kept, cap)
      requires pending == {} || exists c, f :: Nearest(c, pending) && Furthest(f, kept) && Dist(f) < Dist(c)
      ensures Explores(starts, cap, trail, kept)
    {
      hide BestFirst, Seen, Closest;
      if pending != {} {
        var c, f :| Nearest(c, pending) && Furthest(f, kept) && Dist(f) < Dist(c);
        forall k | k in kept ensures k !in pending {}
      }
    }

    ghost predicate InRange(s: set<NodeId>) {
      forall v :: v in s ==> 0 <= v < |graph|
    }

    lemma {:induction false} SeenIsReached(starts: set<NodeId>, cap: nat, trail: Trail<NodeId>, i: NodeId)
      requires BestFirst(starts, cap, trail) && i in Seen(starts, trail)
      ensures Reaches(graph, layer, starts, i)
    {
      if i in starts {
        ReachSelf(graph, layer, starts, i);
      } else {
        var before, c := trail.before, trail.last;
        if i in Seen(starts, before) {
          SeenIsReached(starts, cap, before, i);
        } else {
          SeenIsReached(starts, cap, before, c);
          ReachStep(graph, layer, starts, c, i);
        }
      }
    }

    lemma {:induction false} SeenHolds(starts: set<NodeId>, trail: Trail<NodeId>, i: NodeId)
      requires InRange(starts)
      ensures starts <= Seen(starts, trail)
      ensures InRange(Seen(starts, trail))
      ensures i in trail.Nodes() ==> Succ(i) <= Seen(starts, trail)
    {
      if trail.Then? {
        SeenHolds(starts, trail.before, i);
      }
    }

    /** Every neighbour of a kept node is kept too, or the kept set is full and the
        neighbour is no closer than anything in it. */
    lemma LocallyOptimal(starts: set<NodeId>, cap: nat, trail: Trail<NodeId>, found: set<NodeId>, f: NodeId, n: NodeId)
      requires InRange(starts)
      requires Explores(starts, cap, trail, found) && f in found && n in Succ(f)
      ensures n in found || (|found| == cap && forall b :: b in found ==> Dist(b) <= Dist(n))
    {
      SeenHolds(starts, trail, f);
      if n !in found {
        SubsetSize(found + {n}, Seen(starts, trail));
      }
    }

    /** Nothing kept is further than a start node that was dropped. */
    lemma NeverWorseThanStart(starts: set<NodeId>, cap: nat, trail: Trail<NodeId>, found: set<NodeId>, s: NodeId)
      requires InRange(starts)
      requires cap >= 1 && s in starts && Explores(starts, cap, trail, found)
      ensures found != {} && exists f :: f in found && Dist(f) <= Dist(s)
    {
      SeenHolds(starts, trail, s);
      SubsetSize({s}, Seen(starts, trail));
      var f := PickOne(found);
      assert s in found || Dist(f) <= Dist(s);
    }

    /** A search that keeps all it has seen has seen everything that can be reached. */
    lemma KeepingAllIsExhaustive(starts: set<NodeId>, cap: nat, trail: Trail<NodeId>, found: set<NodeId>)
      requires InRange(starts)
      requires Explores(starts, cap, trail, found) && found == Seen(starts, trail)
      ensures Reached(starts) <= found
    {
      SeenHolds(starts, trail, 0);
      forall i | i in found ensures Succ(i) <= found {
        SeenHolds(starts, trail, i);
      }
      forall i | i in Reached(starts) ensures i in found {
        var p :| IsPath(graph, layer, p) && p[0] in starts && p[|p| - 1] == i;
        ClosedHoldsPath(graph, layer, found, p);
      }
    }

    /** With room for everything that can be reached, the search keeps exactly that. */
    lemma RoomyIsExhaustive(starts: set<NodeId>, cap: nat, trail: Trail<NodeId>, found: set<NodeId>)
      requires InRange(starts)
      requires Explores(starts, cap, trail, found) && cap >= |Reached(starts)|
      ensures found == Reached(starts)
    {
      var seen := Seen(starts, trail);
      SeenHolds(starts, trail, 0);
      forall i | i in seen ensures i in Reached(starts) {
        SeenIsReached(starts, cap, trail, i);
      }
      SubsetSize(seen, Reached(starts));
      SubsetOfSameSize(found, seen);
      KeepingAllIsExhaustive(starts, cap, trail, found);
    }
  }

  lemma MinusOneMore<T>(a: set<T>, b: set<T>, e: T)
    ensures a - b - {e} == a - (b + {e})
  {
  }

  lemma ToSetGrows<T>(s: seq<T>, e: T)
    ensures ToSet(s + [e]) == ToSet(s) + {e}
  {
  }

  lemma ToSetPrefixGrows<T>(s: seq<T>, i: nat)
    requires i < |s|
    ensures ToSet(s[..i + 1]) == ToSet(s[..i]) + {s[i]}
  {
    assert s[..i + 1] == s[..i] + [s[i]];
  }

  lemma IdsConcat(a: seq<Item>, b: seq<Item>)
    ensures Ids(a + b) == Ids(a) + Ids(b)
  {
  }

  lemma PickOne<T>(s: set<T>) returns (x: T)
    requires |s| > 0
    ensures x in s
  {
    assert s != {};
    x :| x in s;
  }

  function AllBelow(n: nat): (r: set<NodeId>)
    ensures |r| == n && forall i :: i in r <==> 0 <= i < n
  {
    if n == 0 then {} else AllBelow(n - 1) + {n - 1}
  }
}
