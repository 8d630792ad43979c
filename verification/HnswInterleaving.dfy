/** Inserts and Searches running at the same time, as a state machine over their atomic steps:
    registering a node, reading a link list, linking a pair under both node locks, writing a
    pruned list, raising the entry point.  What a search or a selection computes in between is
    left open: any subset of what the thread has read. */
module HnswInterleaving {
  import opened HnswGraph

  type ThreadId = nat
  type LinkLists = seq<seq<NodeId>>

  /** The link lists of each node; a node's level is the number of its lists minus one. */
  datatype Shared = Shared(nodes: seq<LinkLists>, entryPoint: NodeId, maxLayer: nat)

  datatype Thread =
    | Idle
      /** Reading links of `layer`; `known` are the nodes it may continue from. */
    | Querying(layer: nat, known: set<NodeId>)
      /** Insert of node `id`, phase 1 or the search of a phase 2 round; `seenMax` is the maximum layer it saw. */
    | Searching(id: NodeId, level: nat, seenMax: nat, layer: nat, known: set<NodeId>)
      /** Linking `id` to `ns[k..]` at `layer`; `entries` go to the next layer. */
    | Linking(id: NodeId, level: nat, seenMax: nat, layer: nat, entries: set<NodeId>, ns: seq<NodeId>, k: nat)
      /** About to write a selection of `copy` as the list of ns[k]. */
    | Pruning(id: NodeId, level: nat, seenMax: nat, layer: nat, entries: set<NodeId>, ns: seq<NodeId>, k: nat,
              copy: seq<NodeId>)
      /** Linked at every layer; the entry point may still have to be raised. */
    | Raising(id: NodeId, level: nat)

  datatype System = System(shared: Shared, threads: map<ThreadId, Thread>)

  function At(nodes: seq<LinkLists>, i: NodeId, layer: nat): seq<NodeId> {
    if 0 <= i < |nodes| && layer < |nodes[i]| then nodes[i][layer] else []
  }

  function Put(nodes: seq<LinkLists>, i: NodeId, layer: nat, list: seq<NodeId>): seq<LinkLists>
    requires 0 <= i < |nodes| && layer < |nodes[i]|
  {
    nodes[i := nodes[i][layer := list]]
  }

  // ---------- the steps of one thread ----------

  /** Under idx.mu: a new node with empty lists; the first node becomes the entry point. */
  ghost predicate Registers(s: Shared, t: Thread, s': Shared, t': Thread) {
    t.Idle? && exists level: nat {:trigger NewNode(s, level)} ::
      && s'.nodes == NewNode(s, level)
      && if s.nodes == [] then s'.entryPoint == 0 && s'.maxLayer == level && t' == Idle
         else
           && s'.entryPoint == s.entryPoint && s'.maxLayer == s.maxLayer
           && t' == Searching(|s.nodes|, level, s.maxLayer, s.maxLayer, {s.entryPoint})
  }

  function NewNode(s: Shared, level: nat): seq<LinkLists> {
    s.nodes + [seq(level + 1, _ => [])]
  }

  /** A query reads the entry point and the maximum layer. */
  ghost predicate StartsQuery(s: Shared, t: Thread, s': Shared, t': Thread) {
    t.Idle? && s.nodes != [] && s' == s && t' == Querying(s.maxLayer, {s.entryPoint})
  }

  /** One link list is read; a query or an insert may go on from the nodes in it that exist. */
  ghost predicate Reads(s: Shared, t: Thread, s': Shared, t': Thread) {
    && s' == s && (t.Querying? || t.Searching?)
    && exists c :: c in t.known && t' == t.(known := t.known + Existing(s, At(s.nodes, c, t.layer)))
  }

  function Existing(s: Shared, list: seq<NodeId>): set<NodeId> {
    set n | n in list && 0 <= n < |s.nodes|
  }

  /** One layer down, from some of the nodes known: always for a query, in phase 1 for an insert. */
  ghost predicate Descends(s: Shared, t: Thread, s': Shared, t': Thread) {
    && s' == s && (t.Querying? || (t.Searching? && t.layer > t.level)) && t.layer > 0
    && exists kept :: kept <= t.known && t' == t.(layer := t.layer - 1, known := kept)
  }

  ghost predicate EndsQuery(s: Shared, t: Thread, s': Shared, t': Thread) {
    t.Querying? && s' == s && t' == Idle
  }

  /** Phase 2 has searched a layer: some known nodes are entries for the next, some are chosen. */
  ghost predicate Chooses(s: Shared, t: Thread, s': Shared, t': Thread) {
    && s' == s && t.Searching? && t.layer <= t.level
    && t'.Linking? && t'.entries <= t.known && ToSet(t'.ns) <= t.known
    && t' == Linking(t.id, t.level, t.seenMax, t.layer, t'.entries, t'.ns, 0)
  }

  function Linked(t: Thread): Thread
    requires t.Linking? || t.Pruning?
  {
    Linking(t.id, t.level, t.seenMax, t.layer, t.entries, t.ns, t.k + 1)
  }

  /** Whether both list indices used when linking to the next chosen node are in range. */
  ghost predicate InBounds(s: Shared, t: Thread)
    requires t.Linking? && t.k < |t.ns|
  {
    && 0 <= t.id < |s.nodes| && t.layer < |s.nodes[t.id]|
    && 0 <= t.ns[t.k] < |s.nodes| && t.layer < |s.nodes[t.ns[t.k]]|
  }

  /** Under both node locks: the new node and a chosen one link to each other, unless they are
      the same; a neighbour with too many links has its list copied for pruning. */
  ghost predicate LinksPair(s: Shared, t: Thread, s': Shared, t': Thread) {
    && t.Linking? && t.k < |t.ns|
    && var n := t.ns[t.k];
       if n == t.id || !(0 <= n < |s.nodes|) then s' == s && t' == Linked(t)
       else
         && InBounds(s, t)
         && var one := Put(s.nodes, t.id, t.layer, s.nodes[t.id][t.layer] + [n]);
            var list := one[n][t.layer] + [t.id];
            && s' == s.(nodes := Put(one, n, t.layer, list))
            && (t' == Linked(t)
                || t' == Pruning(t.id, t.level, t.seenMax, t.layer, t.entries, t.ns, t.k, list))
  }

  /** Under the node lock: any selection of the copied links becomes the list. */
  ghost predicate WritesPruned(s: Shared, t: Thread, s': Shared, t': Thread) {
    && t.Pruning? && t.k < |t.ns| && 0 <= t.ns[t.k] < |s.nodes|
    && t' == Linked(t)
    && exists list :: Rewrites(s, t, list, s')
  }

  ghost predicate Rewrites(s: Shared, t: Thread, list: seq<NodeId>, s': Shared)
    requires t.Pruning? && t.k < |t.ns| && 0 <= t.ns[t.k] < |s.nodes|
  {
    && ToSet(list) <= ToSet(t.copy)
    && s' == if t.layer < |s.nodes[t.ns[t.k]]| then s.(nodes := Put(s.nodes, t.ns[t.k], t.layer, list)) else s
  }

  /** A round of phase 2 is over. */
  ghost predicate EndsRound(s: Shared, t: Thread, s': Shared, t': Thread) {
    && t.Linking? && t.k == |t.ns| && s' == s
    && t' == if t.layer > 0 then Searching(t.id, t.level, t.seenMax, t.layer - 1, t.entries)
             else if t.level > t.seenMax then Raising(t.id, t.level) else Idle
  }

  /** Under idx.mu: the new node becomes the entry point if it is still the highest. */
  ghost predicate Raises(s: Shared, t: Thread, s': Shared, t': Thread) {
    && t.Raising? && t' == Idle
    && s' == if t.level > s.maxLayer then s.(entryPoint := t.id, maxLayer := t.level) else s
  }

  ghost predicate Moves(s: Shared, t: Thread, s': Shared, t': Thread) {
    || Registers(s, t, s', t') || StartsQuery(s, t, s', t') || Reads(s, t, s', t') || Descends(s, t, s', t')
    || EndsQuery(s, t, s', t') || Chooses(s, t, s', t') || LinksPair(s, t, s', t') || WritesPruned(s, t, s', t')
    || EndsRound(s, t, s', t') || Raises(s, t, s', t')
  }

  /** Any one thread takes one step. */
  ghost predicate Next(a: System, b: System) {
    exists i :: i in a.threads && i in b.threads && b.threads == a.threads[i := b.threads[i]]
      && Moves(a.shared, a.threads[i], b.shared, b.threads[i])
  }

  ghost predicate Initial(a: System) {
    a.shared == Shared([], 0, 0) && forall i :: i in a.threads ==> a.threads[i] == Idle
  }

  /** `run` is a run of the system: its first state and the states after each step. */
  ghost predicate Runs(run: seq<System>) {
    run != [] && Initial(run[0]) && forall k :: 0 < k < |run| ==> Next(run[k - 1], run[k])
  }

  // ---------- the invariant ----------

  ghost predicate OnLayer(s: Shared, n: NodeId, layer: nat) {
    0 <= n < |s.nodes| && layer < |s.nodes[n]|
  }

  ghost predicate AllOnLayer(s: Shared, ns: set<NodeId>, layer: nat) {
    forall n :: n in ns ==> OnLayer(s, n, layer)
  }

  /** Every link is in range, reaches a node of at least its layer, and is not to the node itself. */
  ghost predicate LinksOk(s: Shared) {
    forall i, l: nat, n {:trigger n in At(s.nodes, i, l)} :: n in At(s.nodes, i, l) ==> n != i && OnLayer(s, n, l)
  }

  ghost predicate EntryOk(s: Shared) {
    s.nodes != [] ==> 0 <= s.entryPoint < |s.nodes| && |s.nodes[s.entryPoint]| == s.maxLayer + 1
  }

  ghost predicate OwnNode(s: Shared, id: NodeId, level: nat) {
    0 <= id < |s.nodes| && |s.nodes[id]| == level + 1
  }

  ghost predicate ThreadOk(s: Shared, t: Thread) {
    match t
    case Idle => true
    case Querying(layer, known) => AllOnLayer(s, known, layer)
    case Searching(id, level, _, layer, known) => OwnNode(s, id, level) && AllOnLayer(s, known, layer)
    case Linking(id, level, _, layer, entries, ns, k) =>
      && OwnNode(s, id, level) && layer <= level && k <= |ns|
      && AllOnLayer(s, entries, layer) && AllOnLayer(s, ToSet(ns), layer)
    case Pruning(id, level, _, layer, entries, ns, k, copy) =>
      && OwnNode(s, id, level) && layer <= level && k < |ns|
      && AllOnLayer(s, entries, layer) && AllOnLayer(s, ToSet(ns), layer) && AllOnLayer(s, ToSet(copy), layer)
      && ns[k] !in copy
    case Raising(id, level) => OwnNode(s, id, level)
  }

  ghost predicate Safe(a: System) {
    && LinksOk(a.shared) && EntryOk(a.shared)
    && forall i :: i in a.threads ==> ThreadOk(a.shared, a.threads[i])
  }

  /** Nodes are never removed and keep their level. */
  ghost predicate Extends(s: Shared, s': Shared) {
    |s.nodes| <= |s'.nodes| && forall i :: 0 <= i < |s.nodes| ==> |s'.nodes[i]| == |s.nodes[i]|
  }

  lemma OthersStayOk(s: Shared, s': Shared, t: Thread)
    requires Extends(s, s') && ThreadOk(s, t)
    ensures ThreadOk(s', t)
  {
  }

  lemma PutKeepsLinks(s: Shared, i: NodeId, layer: nat, list: seq<NodeId>)
    requires LinksOk(s) && OnLayer(s, i, layer) && AllOnLayer(s, ToSet(list), layer) && i !in list
    ensures var s' := s.(nodes := Put(s.nodes, i, layer, list)); LinksOk(s') && Extends(s, s')
    ensures var nodes := Put(s.nodes, i, layer, list);
      At(nodes, i, layer) == list && forall j :: j != i ==> At(nodes, j, layer) == At(s.nodes, j, layer)
  {
    var s' := s.(nodes := Put(s.nodes, i, layer, list));
    forall j, l: nat, n | n in At(s'.nodes, j, l) ensures n != j && OnLayer(s', n, l) {
      if j == i && l == layer {
        assert n in ToSet(list);
      } else {
        assert n in At(s.nodes, j, l);
      }
    }
  }

  /** Linking a pair keeps every link in order, and its list indices are in range. */
  lemma LinksPairIsSafe(s: Shared, t: Thread, s': Shared, t': Thread)
    requires LinksOk(s) && EntryOk(s) && ThreadOk(s, t) && LinksPair(s, t, s', t')
    ensures LinksOk(s') && EntryOk(s') && Extends(s, s') && ThreadOk(s', t')
  {
    var n := t.ns[t.k];
    assert n in ToSet(t.ns);
    if n != t.id && 0 <= n < |s.nodes| {
      var a := At(s.nodes, t.id, t.layer) + [n];
      PutKeepsLinks(s, t.id, t.layer, a);
      var one := s.(nodes := Put(s.nodes, t.id, t.layer, a));
      var b := At(s.nodes, n, t.layer) + [t.id];
      PutKeepsLinks(one, n, t.layer, b);
      assert s' == one.(nodes := Put(one.nodes, n, t.layer, b));
    }
  }

  lemma WritesPrunedIsSafe(s: Shared, t: Thread, s': Shared, t': Thread)
    requires LinksOk(s) && EntryOk(s) && ThreadOk(s, t) && WritesPruned(s, t, s', t')
    ensures LinksOk(s') && EntryOk(s') && Extends(s, s') && ThreadOk(s', t')
  {
    var n := t.ns[t.k];
    var list :| Rewrites(s, t, list, s');
    assert n in ToSet(t.ns);
    forall x | x in list ensures x in t.copy {
      assert x in ToSet(list);
    }
    PutKeepsLinks(s, n, t.layer, list);
  }

  lemma RegistersIsSafe(s: Shared, t: Thread, s': Shared, t': Thread)
    requires LinksOk(s) && EntryOk(s) && Registers(s, t, s', t')
    ensures LinksOk(s') && EntryOk(s') && Extends(s, s') && ThreadOk(s', t')
  {
    var level: nat :| s'.nodes == NewNode(s, level)
      && if s.nodes == [] then s'.entryPoint == 0 && s'.maxLayer == level && t' == Idle
         else
           && s'.entryPoint == s.entryPoint && s'.maxLayer == s.maxLayer
           && t' == Searching(|s.nodes|, level, s.maxLayer, s.maxLayer, {s.entryPoint});
    forall i, l: nat, n | n in At(s'.nodes, i, l) ensures n != i && OnLayer(s', n, l) {
      assert n in At(s.nodes, i, l);
    }
  }

  lemma ReadsIsSafe(s: Shared, t: Thread, s': Shared, t': Thread)
    requires LinksOk(s) && ThreadOk(s, t) && Reads(s, t, s', t')
    ensures ThreadOk(s', t')
  {
    var c :| c in t.known && t' == t.(known := t.known + Existing(s, At(s.nodes, c, t.layer)));
    forall n | n in t'.known ensures OnLayer(s, n, t.layer) {
      assert n in t.known || n in At(s.nodes, c, t.layer);
    }
  }

  lemma ChoosesIsSafe(s: Shared, t: Thread, s': Shared, t': Thread)
    requires ThreadOk(s, t) && Chooses(s, t, s', t')
    ensures ThreadOk(s', t')
  {
    forall n | n in t'.entries || n in ToSet(t'.ns) ensures n in t.known {}
  }

  /** Every atomic step of every thread is safe. */
  lemma MovesAreSafe(s: Shared, t: Thread, s': Shared, t': Thread)
    requires LinksOk(s) && EntryOk(s) && ThreadOk(s, t) && Moves(s, t, s', t')
    ensures LinksOk(s') && EntryOk(s') && Extends(s, s') && ThreadOk(s', t')
  {
    if Registers(s, t, s', t') {
      RegistersIsSafe(s, t, s', t');
    } else if Reads(s, t, s', t') {
      ReadsIsSafe(s, t, s', t');
    } else if Chooses(s, t, s', t') {
      ChoosesIsSafe(s, t, s', t');
    } else if LinksPair(s, t, s', t') {
      LinksPairIsSafe(s, t, s', t');
    } else if WritesPruned(s, t, s', t') {
      WritesPrunedIsSafe(s, t, s', t');
    }
  }

  lemma NextIsSafe(a: System, b: System)
    requires Safe(a) && Next(a, b)
    ensures Safe(b)
  {
    var i :| i in a.threads && i in b.threads && b.threads == a.threads[i := b.threads[i]]
      && Moves(a.shared, a.threads[i], b.shared, b.threads[i]);
    MovesAreSafe(a.shared, a.threads[i], b.shared, b.threads[i]);
    forall j | j in b.threads && j != i ensures ThreadOk(b.shared, b.threads[j]) {
      OthersStayOk(a.shared, b.shared, a.threads[j]);
    }
  }

  /** In every run, whatever the interleaving: links are in range, on their layer and never to
      the node itself, and the entry point is on the maximum layer. */
  lemma {:induction false} RunsAreSafe(run: seq<System>)
    requires Runs(run)
    ensures Safe(run[|run| - 1])
  {
    if |run| > 1 {
      RunsAreSafe(run[..|run| - 1]);
      NextIsSafe(run[|run| - 2], run[|run| - 1]);
    }
  }

  /** No link list is ever indexed out of range: not by a thread about to link two nodes,
      nor by one about to write a pruned list. */
  lemma NeverOutOfRange(run: seq<System>, i: ThreadId)
    requires Runs(run) && i in run[|run| - 1].threads
    ensures var a := run[|run| - 1]; var t := a.threads[i];
      && (t.Linking? && t.k < |t.ns| ==> InBounds(a.shared, t))
      && (t.Pruning? ==> t.k < |t.ns| && OnLayer(a.shared, t.ns[t.k], t.layer))
  {
    RunsAreSafe(run);
    var t := run[|run| - 1].threads[i];
    if (t.Linking? && t.k < |t.ns|) || t.Pruning? {
      assert t.ns[t.k] in ToSet(t.ns);
    }
  }
}
