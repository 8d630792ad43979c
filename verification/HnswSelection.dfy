/** What selectNeighborsHeuristic chooses, said of the distances alone: no heap, no order of
    examination, no state in between. */
module HnswSelection {
  import opened Sets
  import opened HnswGraph
  import opened HnswNeighbors
  import opened HnswSpec

  /** The distance between two nodes. */
  function Between(v: View, a: NodeId, b: NodeId): real {
    v.metric(Vec(v, a), Vec(v, b))
  }

  /** Some head is no further than x and closer to x than the query is. */
  ghost predicate Crowded(v: View, heads: seq<NodeId>, x: NodeId) {
    exists r :: r in heads && v.Dist(r) <= v.Dist(x) && Between(v, x, r) < v.Dist(x)
  }

  /** Heads come in ascending distance, and none is closer to an earlier one than to the query. */
  ghost predicate Spread(v: View, heads: seq<NodeId>) {
    forall i, j :: 0 <= i < j < |heads| ==>
      v.Dist(heads[i]) <= v.Dist(heads[j]) <= Between(v, heads[j], heads[i])
  }

  /** As many of the nodes as fit, each once, a nearest one first. */
  ghost predicate Fills(v: View, among: set<NodeId>, M: nat, ns: seq<NodeId>) {
    && |ns| == Min(M, |among|) && Distinct(ns) && (forall n :: n in ns ==> n in among)
    && (ns != [] ==> v.Nearest(ns[0], among))
  }

  /** After the heads come nodes that they crowd out, nearest first. */
  ghost predicate Backfills(v: View, ns: seq<NodeId>, heads: nat)
    requires heads <= |ns|
  {
    && (forall i :: heads <= i < |ns| ==> Crowded(v, ns[..heads], ns[i]))
    && (forall i, j :: heads <= i < j < |ns| ==> v.Dist(ns[i]) <= v.Dist(ns[j]))
  }

  /** x may be left out: the heads crowd it out and the others are no further than it, or the heads
      alone fill the choice and none of them is further. */
  ghost predicate Spared(v: View, M: nat, ns: seq<NodeId>, heads: nat, x: NodeId)
    requires heads <= |ns|
  {
    if Crowded(v, ns[..heads], x) then forall i :: heads <= i < |ns| ==> v.Dist(ns[i]) <= v.Dist(x)
    else |ns| == heads == M && forall i :: 0 <= i < heads ==> v.Dist(ns[i]) <= v.Dist(x)
  }

  /** The choice of algorithm 4 of Malkov and Yashunin with its pruned candidates kept. */
  ghost predicate Chooses(v: View, among: set<NodeId>, M: nat, ns: seq<NodeId>, heads: nat) {
    && heads <= |ns| && Fills(v, among, M, ns) && Spread(v, ns[..heads]) && Backfills(v, ns, heads)
    && forall x :: x in among && x !in ns ==> Spared(v, M, ns, heads, x)
  }

  ghost predicate Choice(v: View, among: set<NodeId>, M: nat, ns: seq<NodeId>) {
    exists heads: nat :: Chooses(v, among, M, ns, heads)
  }

  /** The candidates are these nodes, each with its distance from the query. */
  ghost predicate Offers(v: View, pool: set<Item>, among: set<NodeId>) {
    && OneEach(pool) && (forall x :: x in pool ==> Exists(v, x) && x.dist == v.Dist(x.id))
    && (forall x :: x in pool ==> x.id in among) && (forall n :: n in among ==> Item(n, v.Dist(n)) in pool)
  }

  lemma OffersSize(v: View, pool: set<Item>, among: set<NodeId>)
    requires Offers(v, pool, among)
    ensures |pool| == |among|
  {
    var ids := set x | x in pool :: x.id;
    assert ids == among by {
      forall n | n in among ensures n in ids {
        assert Item(n, v.Dist(n)) in pool;
      }
    }
    IdsSize(pool);
  }

  lemma {:induction false} IdsSize(pool: set<Item>)
    requires OneEach(pool)
    ensures |set x | x in pool :: x.id| == |pool|
  {
    if pool != {} {
      var x :| x in pool;
      var rest := pool - {x};
      IdsSize(rest);
      assert (set y | y in pool :: y.id) == (set y | y in rest :: y.id) + {x.id};
    }
  }

  lemma {:induction false} NotExaminedIsFurther(v: View, pool: set<Item>, M: nat, t: Trail<Item>, r: Item, y: Item)
    requires NearestFirst(v, pool, M, t) && r in t.Nodes() && y in pool && y !in t.Nodes()
    ensures r.dist <= y.dist
  {
    if r == t.last {
      assert y in pool - t.before.Nodes();
    } else {
      NotExaminedIsFurther(v, pool, M, t.before, r, y);
    }
  }

  lemma DiscardedIsCrowded(v: View, pool: set<Item>, among: set<NodeId>, M: nat, t: Trail<Item>, d: Item)
    requires Offers(v, pool, among) && NearestFirst(v, pool, M, t) && d in Discarded(v, t)
    ensures Crowded(v, Ids(Kept(v, t)), d.id)
  {
    DiscardIsJustified(v, pool, M, t, d);
    ExaminedInPool(v, pool, M, t);
    KeptOrDiscarded(v, pool, M, t);
    var r :| r in Kept(v, t) && r.dist <= d.dist && v.metric(Vec(v, d.id), Vec(v, r.id)) < d.dist;
    var k :| 0 <= k < |Kept(v, t)| && Kept(v, t)[k] == r;
    assert Ids(Kept(v, t))[k] == r.id;
    assert r in pool && d in pool;
  }

  lemma KeptIsSpread(v: View, pool: set<Item>, among: set<NodeId>, M: nat, t: Trail<Item>)
    requires Offers(v, pool, among) && NearestFirst(v, pool, M, t)
    ensures Spread(v, Ids(Kept(v, t)))
  {
    var ks := Kept(v, t);
    ExaminedInPool(v, pool, M, t);
    KeptOrDiscarded(v, pool, M, t);
    forall i, j | 0 <= i < j < |ks|
      ensures v.Dist(Ids(ks)[i]) <= v.Dist(Ids(ks)[j]) <= Between(v, Ids(ks)[j], Ids(ks)[i])
    {
      KeptIsDiverse(v, pool, M, t, i, j);
      assert ks[i] in ks && ks[j] in ks && ks[i] in pool && ks[j] in pool;
    }
  }

  lemma FirstIsNearest(v: View, pool: set<Item>, among: set<NodeId>, M: nat, sel: Selection)
    requires Offers(v, pool, among) && Selects(v, pool, M, true, sel) && Chosen(v, sel) != []
    ensures Kept(v, sel.popped) != [] && v.Nearest(Kept(v, sel.popped)[0].id, among)
  {
    var t := sel.popped;
    assert t.Then?;
    NearestIsKeptFirst(v, pool, M, t);
    var first := Kept(v, t)[0];
    forall n | n in among ensures v.Dist(first.id) <= v.Dist(n) {
      assert Item(n, v.Dist(n)) in pool;
    }
  }

  /** What is left out is discarded, or was never examined because enough had been kept. */
  lemma LeftOut(v: View, pool: set<Item>, among: set<NodeId>, M: nat, sel: Selection, y: Item)
    requires Offers(v, pool, among) && Selects(v, pool, M, true, sel) && y in pool && y !in Chosen(v, sel)
    ensures var heads := Ids(Kept(v, sel.popped));
      || (Crowded(v, heads, y.id) && forall i :: 0 <= i < |sel.fill| ==> sel.fill[i].dist <= y.dist)
      || (|heads| == M && sel.fill == [] && forall i :: 0 <= i < |heads| ==> v.Dist(heads[i]) <= y.dist)
  {
    var t, ks := sel.popped, Kept(v, sel.popped);
    KeptOrDiscarded(v, pool, M, t);
    KeptAtMost(v, pool, M, t);
    ExaminedInPool(v, pool, M, t);
    if y in t.Nodes() {
      assert y in Discarded(v, t) && y in ToSet(Discarded(v, t)) && y !in sel.fill;
      DiscardedIsCrowded(v, pool, among, M, t, y);
    } else {
      forall i | 0 <= i < |ks| ensures v.Dist(Ids(ks)[i]) <= y.dist {
        assert ks[i] in ks && ks[i] in t.Nodes();
        NotExaminedIsFurther(v, pool, M, t, ks[i], y);
      }
    }
  }

  lemma FillIsCrowded(v: View, pool: set<Item>, among: set<NodeId>, M: nat, sel: Selection, i: nat)
    requires Offers(v, pool, among) && Selects(v, pool, M, true, sel) && i < |sel.fill|
    ensures sel.fill[i] in pool && Crowded(v, Ids(Kept(v, sel.popped)), sel.fill[i].id)
  {
    assert sel.fill[i] in Discarded(v, sel.popped);
    ExaminedInPool(v, pool, M, sel.popped);
    KeptOrDiscarded(v, pool, M, sel.popped);
    DiscardedIsCrowded(v, pool, among, M, sel.popped, sel.fill[i]);
  }

  lemma ChosenFills(v: View, pool: set<Item>, among: set<NodeId>, M: nat, sel: Selection)
    requires Offers(v, pool, among) && Selects(v, pool, M, true, sel)
    ensures Fills(v, among, M, Ids(Chosen(v, sel)))
    ensures forall x :: x in Chosen(v, sel) ==> x in pool
  {
    var chosen, ns := Chosen(v, sel), Ids(Chosen(v, sel));
    SelectionIsSound(v, pool, M, true, sel);
    SelectionFills(v, pool, M, sel);
    assert Usable(v, pool) == pool;
    OffersSize(v, pool, among);
    if ns != [] {
      FirstIsNearest(v, pool, among, M, sel);
      assert ns[0] == Kept(v, sel.popped)[0].id;
    }
    hide Selects, Kept;
    forall i | 0 <= i < |ns| ensures ns[i] in among {
      assert chosen[i] in chosen && chosen[i] in pool;
    }
  }

  lemma FillIsBackfill(v: View, pool: set<Item>, among: set<NodeId>, M: nat, sel: Selection)
    requires Offers(v, pool, among) && Selects(v, pool, M, true, sel)
    ensures Backfills(v, Ids(Chosen(v, sel)), |Kept(v, sel.popped)|)
  {
    hide Crowded, Selects, Kept;
    var ks, fill, ns := Kept(v, sel.popped), sel.fill, Ids(Chosen(v, sel));
    assert ns[..|ks|] == Ids(ks);
    forall i | |ks| <= i < |ns|
      ensures Crowded(v, ns[..|ks|], ns[i]) && fill[i - |ks|].dist == v.Dist(ns[i])
    {
      FillIsCrowded(v, pool, among, M, sel, i - |ks|);
    }
    FillAscends(v, pool, M, sel);
  }

  lemma LeftOutIsSpared(v: View, pool: set<Item>, among: set<NodeId>, M: nat, sel: Selection, x: NodeId)
    requires Offers(v, pool, among) && Selects(v, pool, M, true, sel) && x in among && x !in Ids(Chosen(v, sel))
    requires forall y :: y in Chosen(v, sel) ==> y in pool
    ensures Spared(v, M, Ids(Chosen(v, sel)), |Kept(v, sel.popped)|, x)
  {
    hide Crowded, Selects, Kept;
    var ks, fill, ns := Kept(v, sel.popped), sel.fill, Ids(Chosen(v, sel));
    assert ns[..|ks|] == Ids(ks);
    NotChosen(Chosen(v, sel), Item(x, v.Dist(x)));
    LeftOut(v, pool, among, M, sel, Item(x, v.Dist(x)));
    forall i | |ks| <= i < |ns| ensures fill[i - |ks|].dist == v.Dist(ns[i]) {
      assert Chosen(v, sel)[i] in Chosen(v, sel);
    }
  }

  /** The heuristic, with the backfill, makes such a choice. */
  lemma SelectionIsChoice(v: View, pool: set<Item>, among: set<NodeId>, M: nat, sel: Selection)
    requires Offers(v, pool, among) && Selects(v, pool, M, true, sel)
    ensures Chooses(v, among, M, Ids(Chosen(v, sel)), |Kept(v, sel.popped)|)
  {
    assert NearestFirst(v, pool, M, sel.popped);
    hide Spared, Spread, Fills, Backfills, Selects, Kept, Offers, NearestFirst;
    var ns, heads := Ids(Chosen(v, sel)), |Kept(v, sel.popped)|;
    ChosenFills(v, pool, among, M, sel);
    KeptIsSpread(v, pool, among, M, sel.popped);
    assert ns[..heads] == Ids(Kept(v, sel.popped));
    FillIsBackfill(v, pool, among, M, sel);
    forall x | x in among && x !in ns ensures Spared(v, M, ns, heads, x) {
      LeftOutIsSpared(v, pool, among, M, sel, x);
    }
  }

  lemma NotChosen(chosen: seq<Item>, y: Item)
    requires y.id !in Ids(chosen)
    ensures y !in chosen
  {
    forall k | 0 <= k < |chosen| ensures chosen[k] != y {
      assert Ids(chosen)[k] == chosen[k].id;
    }
  }

  lemma FillAscends(v: View, pool: set<Item>, M: nat, sel: Selection)
    requires Selects(v, pool, M, true, sel)
    ensures forall i, j :: 0 <= i < j < |sel.fill| ==> sel.fill[i].dist <= sel.fill[j].dist
  {
  }

  // ---------- the choice is the only one, up to ties ----------

  ghost predicate NoTies(v: View, among: set<NodeId>) {
    forall x, y :: x in among && y in among && v.Dist(x) == v.Dist(y) ==> x == y
  }

  /** A head of one choice is not crowded by the heads of another that begins alike and goes on
      with a further one. */
  lemma HeadIsFree(v: View, heads: seq<NodeId>, heads': seq<NodeId>, i: nat)
    requires Spread(v, heads) && Spread(v, heads') && i < |heads| && i < |heads'| && heads[..i] == heads'[..i]
    requires v.Dist(heads[i]) < v.Dist(heads'[i])
    ensures !Crowded(v, heads', heads[i])
  {
    forall r | r in heads' && v.Dist(r) <= v.Dist(heads[i])
      ensures v.Dist(heads[i]) <= Between(v, heads[i], r)
    {
      var k :| 0 <= k < |heads'| && heads'[k] == r;
      assert k < i;
      assert heads[..i][k] == heads'[..i][k];
    }
  }

  /** So the other has it nowhere. */
  lemma HeadIsAbsent(v: View, ns: seq<NodeId>, ns': seq<NodeId>, h': nat, i: nat)
    requires i < |ns| && Distinct(ns) && i < h' <= |ns'| && Spread(v, ns'[..h']) && Backfills(v, ns', h')
    requires ns[..i] == ns'[..i] && v.Dist(ns[i]) < v.Dist(ns'[i]) && !Crowded(v, ns'[..h'], ns[i])
    ensures ns[i] !in ns'
  {
    hide Crowded;
    forall k | 0 <= k < |ns'| ensures ns'[k] != ns[i] {
      if k < i {
        assert ns[..i][k] == ns'[..i][k];
      } else if k < h' {
        var heads' := ns'[..h'];
        assert heads'[i] == ns'[i] && heads'[k] == ns'[k];
      }
    }
  }

  lemma HeadIsNotPassed(v: View, among: set<NodeId>, M: nat, ns: seq<NodeId>, h: nat, ns': seq<NodeId>, h': nat,
                        i: nat)
    requires Chooses(v, among, M, ns, h) && Chooses(v, among, M, ns', h')
    requires i < h && i < h' && ns[..i] == ns'[..i]
    ensures v.Dist(ns'[i]) <= v.Dist(ns[i])
  {
    hide Crowded, Spread, Backfills, View.Nearest;
    if v.Dist(ns[i]) < v.Dist(ns'[i]) {
      assert ns[..h][..i] == ns[..i] && ns'[..h'][..i] == ns'[..i];
      HeadIsFree(v, ns[..h], ns'[..h'], i);
      assert ns[i] in ns;
      HeadIsAbsent(v, ns, ns', h', i);
    }
  }

  lemma ChosenAmong(v: View, among: set<NodeId>, M: nat, ns: seq<NodeId>, h: nat)
    requires Chooses(v, among, M, ns, h)
    ensures h <= |ns| == Min(M, |among|) && forall i :: 0 <= i < |ns| ==> ns[i] in among
  {
  }

  lemma {:induction false} SameHeads(v: View, among: set<NodeId>, M: nat, ns: seq<NodeId>, h: nat, ns': seq<NodeId>,
                                     h': nat, i: nat)
    requires Chooses(v, among, M, ns, h) && Chooses(v, among, M, ns', h') && NoTies(v, among)
    requires i <= h && i <= h'
    ensures i <= |ns| == |ns'| && ns[..i] == ns'[..i]
  {
    hide Chooses;
    ChosenAmong(v, among, M, ns, h);
    ChosenAmong(v, among, M, ns', h');
    if i > 0 {
      SameHeads(v, among, M, ns, h, ns', h', i - 1);
      HeadIsNotPassed(v, among, M, ns, h, ns', h', i - 1);
      HeadIsNotPassed(v, among, M, ns', h', ns, h, i - 1);
      assert ns[..i] == ns[..i - 1] + [ns[i - 1]] && ns'[..i] == ns'[..i - 1] + [ns'[i - 1]];
    }
  }

  /** A choice that begins with the heads of another has no further ones. */
  lemma HeadsEnd(v: View, among: set<NodeId>, M: nat, ns: seq<NodeId>, h: nat, ns': seq<NodeId>, h': nat)
    requires Chooses(v, among, M, ns, h) && Chooses(v, among, M, ns', h') && h <= h' && ns[..h] == ns'[..h]
    ensures h == h'
  {
    hide View.Nearest, Spread;
    if h < h' {
      NextIsFree(v, ns'[..h'], h);
      assert ns'[..h'][..h] == ns'[..h] && ns'[..h'][h] == ns'[h] && ns'[h] in ns';
      forall k | 0 <= k < |ns| ensures ns[k] != ns'[h] {
        if k < h {
          assert ns[..h][k] == ns'[..h][k];
        }
      }
    }
  }

  lemma NextIsFree(v: View, heads: seq<NodeId>, h: nat)
    requires Spread(v, heads) && h < |heads|
    ensures !Crowded(v, heads[..h], heads[h])
  {
    forall r | r in heads[..h] ensures v.Dist(heads[h]) <= Between(v, heads[h], r) {
      var k :| 0 <= k < h && heads[..h][k] == r;
      assert heads[k] == r;
    }
  }

  lemma FillIsNotPassed(v: View, among: set<NodeId>, M: nat, ns: seq<NodeId>, ns': seq<NodeId>, h: nat, i: nat)
    requires Chooses(v, among, M, ns, h) && Chooses(v, among, M, ns', h) && h <= i < |ns| == |ns'|
    requires ns[..i] == ns'[..i]
    ensures v.Dist(ns'[i]) <= v.Dist(ns[i])
  {
    hide View.Nearest, Spread, Crowded;
    if v.Dist(ns[i]) < v.Dist(ns'[i]) {
      assert ns[..h] == ns[..i][..h] == ns'[..h] && ns[i] in ns;
      forall k | 0 <= k < |ns'| ensures ns'[k] != ns[i] {
        if k < i {
          assert ns[..i][k] == ns'[..i][k];
        }
      }
    }
  }

  lemma {:induction false} SameFill(v: View, among: set<NodeId>, M: nat, ns: seq<NodeId>, ns': seq<NodeId>, h: nat,
                                    i: nat)
    requires Chooses(v, among, M, ns, h) && Chooses(v, among, M, ns', h) && NoTies(v, among)
    requires h <= i <= |ns| == |ns'| && ns[..h] == ns'[..h]
    ensures ns[..i] == ns'[..i]
  {
    hide Chooses;
    if i > h {
      SameFill(v, among, M, ns, ns', h, i - 1);
      FillIsNotPassed(v, among, M, ns, ns', h, i - 1);
      FillIsNotPassed(v, among, M, ns', ns, h, i - 1);
      ChosenAmong(v, among, M, ns, h);
      ChosenAmong(v, among, M, ns', h);
      assert ns[..i] == ns[..i - 1] + [ns[i - 1]] && ns'[..i] == ns'[..i - 1] + [ns'[i - 1]];
    }
  }

  /** Where no two candidates are equally far, there is only one choice. */
  lemma ChoiceIsUnique(v: View, among: set<NodeId>, M: nat, ns: seq<NodeId>, ns': seq<NodeId>)
    requires Choice(v, among, M, ns) && Choice(v, among, M, ns') && NoTies(v, among)
    ensures ns == ns'
  {
    hide Chooses;
    var h: nat :| Chooses(v, among, M, ns, h);
    var h': nat :| Chooses(v, among, M, ns', h');
    ChosenAmong(v, among, M, ns, h);
    ChosenAmong(v, among, M, ns', h');
    SameHeads(v, among, M, ns, h, ns', h', Min(h, h'));
    if h <= h' {
      HeadsEnd(v, among, M, ns, h, ns', h');
    } else {
      HeadsEnd(v, among, M, ns', h', ns, h);
    }
    SameFill(v, among, M, ns, ns', h, |ns|);
    assert ns[..|ns|] == ns && ns'[..|ns'|] == ns';
  }
}
