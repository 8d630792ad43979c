/** One call to an index of the server as it really ends: Insert and Delete can panic half way, or
    block for ever on a lock that an earlier panic has left held (search.go:93-227,
    distance.go:11-15, index.go:92-108 and 171-200, neighbors.go:66, node.go:36-81). */
module HnswServed {
  import opened HnswGraph
  import opened HnswIndex
  import opened HnswSpec
  import opened HnswInvariant
  import opened HnswInsert
  import opened HnswRuns
  import S = ServerSpec

  /** An index, the nodes whose locks a panic has left held, and whether its own lock is: a
      Delete that blocks on a node holds it. */
  datatype Served = Served(state: State, held: set<NodeId>, closed: bool)

  const NO_LOCKS: set<NodeId> := {}

  /** The most 32-bit words that make allocates on a 64-bit platform without a panic. */
  const MAX_CAPACITY := 0x4000_0000_0000

  /** What randomLevel can return.  For M = 1 the level multiplier is infinite, and what an infinity
      converts to is up to the platform: the least integer, which passes the cap, or a large one. */
  predicate Drawn(config: Config, level: int) {
    if config.m >= 2 then 0 <= level <= MAX_LEVEL else level < 0 || level == MAX_LEVEL
  }

  /** Parameters with which neither the level nor the neighbour lists make an Insert panic. */
  predicate Sturdy(config: Config) {
    config.m >= 2 && config.mmax0 <= MAX_CAPACITY
  }

  /** What the index holds by key. */
  function KeyMap(s: State): map<string, S.Indexed> {
    map k | k in s.idMap && 0 <= s.idMap[k] < |s.graph| ::
      S.Indexed(s.graph[s.idMap[k]].vector, s.graph[s.idMap[k]].metadata)
  }

  /** All vectors in the graph, those of deleted keys too, have this dimension. */
  ghost predicate Uniform(g: Graph, dim: nat) {
    forall i :: 0 <= i < |g| ==> |g[i].vector| == dim
  }

  function Updated(s: State, key: string, vector: Vector, metadata: Metadata): State
    requires key in s.idMap && 0 <= s.idMap[key] < |s.graph|
  {
    var id := s.idMap[key];
    s.(graph := s.graph[id := s.graph[id].(vector := vector, metadata := metadata)])
  }

  /** A new node registered and somehow linked, the entry point as before: what an Insert that
      panics half way leaves behind. */
  ghost predicate Stalled(s: State, key: string, vector: Vector, metadata: Metadata, level: nat, s': State) {
    var r := Registered(s, key, vector, metadata, level);
    SameNodes(r.graph, s'.graph) && s' == r.(graph := s'.graph)
  }

  /** Insert: `done` unless it panics or blocks.  A negative level panics in NewNode, with the lock
      of the index held and nothing registered.  The first distance computed is the one from the
      new vector to the entry point, and it panics where the second vector is the shorter one.
      Where M is too large the ground list cannot be allocated.  With vectors of one dimension
      only the out-of-range index is left; with vectors of several it depends on the walk, and
      both ends are allowed. */
  ghost predicate Inserting(metric: Metric, x: Served, key: string, vector: Vector, metadata: Metadata, level: int,
                            x': Served, done: bool) {
    var s := x.state;
    if x.closed then !done && x' == x
    else if key in s.idMap then
      && 0 <= s.idMap[key] < |s.graph|
      && if s.idMap[key] in x.held then !done && x' == x
         else done && x' == x.(state := Updated(s, key, vector, metadata))
    else if level < 0 then !done && x' == x.(closed := true)
    else if s.graph == [] then
      done && x' == x.(state := Registered(s, key, vector, metadata, level).(entryPoint := 0, maxLayer := level))
    else
      && 0 <= s.entryPoint < |s.graph|
      && if s.entryPoint in x.held || |vector| > |s.graph[s.entryPoint].vector| then
           !done && x' == x.(state := Registered(s, key, vector, metadata, level))
         else if Faults(s, key, level) && s.config.m <= MAX_CAPACITY then
           !done && x' == Served(Faulted(s, key, vector, metadata, level), x.held + {s.entryPoint, |s.graph|}, false)
         else
           && x' == x.(state := x'.state)
           && (s.config.mmax0 > MAX_CAPACITY ==> !done)
           && (s.config.mmax0 <= MAX_CAPACITY && Uniform(s.graph, |vector|) ==> done)
           && if done then exists log :: Inserts(metric, s, key, vector, metadata, level, log, x'.state)
              else Stalled(s, key, vector, metadata, level, x'.state)
  }

  /** Delete: blocked on the lock of its node it keeps the lock of the index. */
  ghost predicate Deleting(x: Served, key: string, x': Served, done: bool) {
    var s := x.state;
    if x.closed then !done && x' == x
    else if key !in s.idMap then done && x' == x
    else
      && |s.reverseMap| == |s.graph| && 0 <= s.idMap[key] < |s.graph|
      && if s.idMap[key] in x.held then !done && x' == x.(state := s.(idMap := s.idMap - {key}), closed := true)
         else done && x' == x.(state := Deleted(s, key))
  }

  // ---------- what a call does to the key map ----------

  lemma SameNodesTwice(a: Graph, b: Graph, c: Graph)
    requires SameNodes(a, b) && SameNodes(b, c)
    ensures SameNodes(a, c)
  {
    forall i | 0 <= i < |a|
      ensures c[i].vector == a[i].vector && c[i].metadata == a[i].metadata && c[i].deleted == a[i].deleted
      ensures |c[i].links| == |a[i].links|
    {
      assert b[i].vector == a[i].vector;
    }
  }

  lemma {:induction false} StepsSameNodes(metric: Metric, id: NodeId, ns: seq<NodeId>, layer: nat, maxConn: nat,
                                          g: Graph, k: nat, graphs: Trail<Graph>)
    requires Steps(Linking(metric, id, ns, layer, maxConn), g, k, graphs)
    ensures SameNodes(g, Now(g, graphs))
  {
    hide Links, SameNodes;
    if k == 0 {
      SameNodesSelf(g);
    } else {
      var mid := Now(g, graphs.before);
      StepsSameNodes(metric, id, ns, layer, maxConn, g, k - 1, graphs.before);
      LinksSameNodes(metric, mid, id, ns[k - 1], layer, maxConn, graphs.last);
      SameNodesTwice(g, mid, graphs.last);
    }
  }

  lemma SameNodesSelf(g: Graph)
    ensures SameNodes(g, g)
  {
  }

  lemma {:induction false} RoundsSameNodes(metric: Metric, config: Config, id: NodeId, vector: Vector, g: Graph,
                                           entries: seq<NodeId>, top: nat, low: nat, logs: Trail<LayerLog>)
    requires Rounds(Connecting(metric, config, id, vector), g, entries, top, low, logs)
    ensures SameNodes(g, After(g, logs))
    decreases top + 1 - low
  {
    hide SameNodes, ConnectsAt;
    if low > top {
      SameNodesSelf(g);
    } else {
      var mid := After(g, logs.before);
      RoundsSameNodes(metric, config, id, vector, g, entries, top, low + 1, logs.before);
      RoundSameNodes(metric, config, id, vector, mid, Entries(entries, logs.before), low, logs.last);
      SameNodesTwice(g, mid, logs.last.after);
    }
  }

  lemma RoundSameNodes(metric: Metric, config: Config, id: NodeId, vector: Vector, g: Graph, entries: seq<NodeId>,
                       layer: nat, log: LayerLog)
    requires Connecting(metric, config, id, vector)(g, entries, layer, log)
    ensures SameNodes(g, log.after)
  {
    hide SameNodes, Steps;
    var v := View(metric, g, vector, layer);
    var ns := Ids(HnswNeighbors.Chosen(v, log.sel));
    StepsSameNodes(metric, id, ns, layer, config.MaxConn(layer), g, |ns|, log.graphs);
  }

  /** A completed Insert of a new key changes links, and at most the entry point, of the state
      with the node registered. */
  lemma InsertedIsStalled(metric: Metric, s: State, key: string, vector: Vector, metadata: Metadata, level: nat,
                          log: InsertLog, s': State)
    requires key !in s.idMap && Inserts(metric, s, key, vector, metadata, level, log, s')
    ensures Stalled(s, key, vector, metadata, level, s'.(entryPoint := s.entryPoint, maxLayer := s.maxLayer))
    ensures 0 <= s.entryPoint < |s.graph| || s.graph == [] ==> 0 <= s'.entryPoint < |s'.graph|
  {
    hide SameNodes;
    var r := Registered(s, key, vector, metadata, level);
    if s.graph == [] {
      SameNodesSelf(r.graph);
    } else {
      RoundsSameNodes(metric, s.config, |s.graph|, vector, r.graph, [Reach(s.entryPoint, log.hops)],
                      Min(level, s.maxLayer), 0, log.layers);
    }
    SameNodesSize(r.graph, s'.graph);
  }

  lemma SameNodesSize(g: Graph, g': Graph)
    requires SameNodes(g, g')
    ensures |g'| == |g|
  {
  }

  /** However it stalls, the new key is registered with its vector and no other key changes. */
  lemma StalledKeyMap(s: State, key: string, vector: Vector, metadata: Metadata, level: nat, s': State)
    requires KeysOk(s) && key !in s.idMap && Stalled(s, key, vector, metadata, level, s')
    ensures KeyMap(s') == KeyMap(s)[key := S.Indexed(vector, metadata)] && KeysOk(s') && s'.config == s.config
  {
    KeysAfterRegister(s, key, vector, metadata, level, s'.graph);
    var r := Registered(s, key, vector, metadata, level);
    var goal := KeyMap(s)[key := S.Indexed(vector, metadata)];
    forall k ensures k in KeyMap(s') <==> k in goal {}
    forall k | k in goal ensures KeyMap(s')[k] == goal[k] {
      var id := s'.idMap[k];
      assert r.graph[id].vector == s'.graph[id].vector;
    }
  }

  /** The entry point and the highest layer are no part of the key map. */
  lemma MovedEntryKeyMap(s: State, ep: NodeId, layer: nat)
    ensures KeyMap(s.(entryPoint := ep, maxLayer := layer)) == KeyMap(s)
    ensures KeysOk(s.(entryPoint := ep, maxLayer := layer)) <==> KeysOk(s)
  {
  }

  /** Insert, of a new key or an old one, changes the key map at its key alone. */
  lemma InsertsKeyMap(metric: Metric, s: State, key: string, vector: Vector, metadata: Metadata, level: nat,
                      log: InsertLog, s': State)
    requires KeysOk(s) && Inserts(metric, s, key, vector, metadata, level, log, s')
    ensures KeyMap(s') == KeyMap(s)[key := S.Indexed(vector, metadata)] && KeysOk(s') && s'.config == s.config
  {
    if key in s.idMap {
      UpdatedKeyMap(s, key, vector, metadata);
    } else {
      hide Inserts, Stalled, KeyMap, KeysOk;
      InsertedIsStalled(metric, s, key, vector, metadata, level, log, s');
      var t := s'.(entryPoint := s.entryPoint, maxLayer := s.maxLayer);
      StalledKeyMap(s, key, vector, metadata, level, t);
      MovedEntryKeyMap(t, s'.entryPoint, s'.maxLayer);
    }
  }

  lemma UpdatedKeyMap(s: State, key: string, vector: Vector, metadata: Metadata)
    requires KeysOk(s) && key in s.idMap
    ensures var s' := Updated(s, key, vector, metadata);
      KeyMap(s') == KeyMap(s)[key := S.Indexed(vector, metadata)] && KeysOk(s')
  {
    var s', goal := Updated(s, key, vector, metadata), KeyMap(s)[key := S.Indexed(vector, metadata)];
    forall k | k in goal ensures k in KeyMap(s') && KeyMap(s')[k] == goal[k] {
      assert k != key ==> s.reverseMap[s.idMap[k]] == k;
    }
    assert KeyMap(s').Keys == goal.Keys;
  }

  /** An Insert stopped by the out-of-range index has registered its key. */
  lemma FaultedKeyMap(s: State, key: string, vector: Vector, metadata: Metadata, level: nat)
    requires KeysOk(s) && Faults(s, key, level)
    ensures var s' := Faulted(s, key, vector, metadata, level);
      KeyMap(s') == KeyMap(s)[key := S.Indexed(vector, metadata)] && KeysOk(s') && s'.config == s.config
  {
    hide KeyMap, KeysOk;
    var r, s' := Registered(s, key, vector, metadata, level), Faulted(s, key, vector, metadata, level);
    var layer := Min(level, s.maxLayer);
    SetLinksAt(r.graph, |s.graph|, layer, r.graph[|s.graph|].links[layer] + [s.entryPoint]);
    StalledKeyMap(s, key, vector, metadata, level, s');
  }

  /** Delete removes its key from the key map and no other. */
  lemma DeletedKeyMap(s: State, key: string)
    requires KeysOk(s)
    ensures KeyMap(Deleted(s, key)) == KeyMap(s) - {key}
    ensures KeysOk(Deleted(s, key)) && Deleted(s, key).config == s.config
  {
    hide Elected;
    if key in s.idMap {
      DeletedKeysOk(s, key);
      var s' := Deleted(s, key);
      forall k | k in s.idMap && k != key ensures s'.graph[s.idMap[k]] == s.graph[s.idMap[k]] {
        assert s.reverseMap[s.idMap[k]] == k;
      }
      assert KeyMap(s') == KeyMap(s) - {key};
    } else {
      assert KeyMap(s) - {key} == KeyMap(s);
    }
  }

  lemma DeletedKeysOk(s: State, key: string)
    requires KeysOk(s) && key in s.idMap
    ensures KeysOk(Deleted(s, key))
  {
    hide Elected;
    var s' := Deleted(s, key);
    forall i | 0 <= i < |s.graph| && i != s.idMap[key] ensures s'.graph[i] == s.graph[i] {}
  }

  /** What every call keeps, panic or not. */
  ghost predicate Sound(x: Served) {
    x.closed || (KeysOk(x.state) && (x.state.graph != [] ==> 0 <= x.state.entryPoint < |x.state.graph|))
  }

  lemma RegisteredIsStalled(s: State, key: string, vector: Vector, metadata: Metadata, level: nat)
    ensures Stalled(s, key, vector, metadata, level, Registered(s, key, vector, metadata, level))
  {
  }

  lemma StalledIsInRange(s: State, key: string, vector: Vector, metadata: Metadata, level: nat, s': State)
    requires Stalled(s, key, vector, metadata, level, s') && 0 <= s.entryPoint < |s.graph|
    ensures 0 <= s'.entryPoint < |s'.graph| && s'.config == s.config && s'.ef == s.ef
  {
  }

  /** Every Insert of the server changes the key map at its key, unless it blocks or panics before it. */
  lemma InsertingRefines(metric: Metric, x: Served, key: string, vector: Vector, metadata: Metadata, level: int,
                         x': Served, done: bool)
    requires Sound(x) && Inserting(metric, x, key, vector, metadata, level, x', done)
    ensures Sound(x') && x'.state.config == x.state.config && x'.state.ef == x.state.ef
    ensures if !done && x'.state == x.state then true
            else KeyMap(x'.state) == KeyMap(x.state)[key := S.Indexed(vector, metadata)]
  {
    hide KeyMap, KeysOk, Inserts, Stalled, Faults, Uniform, Faulted;
    var s := x.state;
    if x.closed {
      return;
    }
    if key in s.idMap {
      UpdatedKeyMap(s, key, vector, metadata);
    } else if level < 0 {
      return;
    } else if s.graph == [] {
      FirstKeyMap(s, key, vector, metadata, level);
    } else if s.entryPoint in x.held || |vector| > |s.graph[s.entryPoint].vector| {
      RegisteredIsStalled(s, key, vector, metadata, level);
      StalledKeyMap(s, key, vector, metadata, level, x'.state);
    } else if Faults(s, key, level) && s.config.m <= MAX_CAPACITY {
      FaultedKeyMap(s, key, vector, metadata, level);
      FaultedKeeps(s, key, vector, metadata, level);
    } else if done {
      var log :| Inserts(metric, s, key, vector, metadata, level, log, x'.state);
      InsertsKeyMap(metric, s, key, vector, metadata, level, log, x'.state);
      InsertedIsStalled(metric, s, key, vector, metadata, level, log, x'.state);
      StalledIsInRange(s, key, vector, metadata, level,
                       x'.state.(entryPoint := s.entryPoint, maxLayer := s.maxLayer));
    } else {
      StalledKeyMap(s, key, vector, metadata, level, x'.state);
      StalledIsInRange(s, key, vector, metadata, level, x'.state);
    }
  }

  lemma FirstKeyMap(s: State, key: string, vector: Vector, metadata: Metadata, level: nat)
    requires KeysOk(s) && key !in s.idMap && s.graph == []
    ensures var s' := Registered(s, key, vector, metadata, level).(entryPoint := 0, maxLayer := level);
      KeyMap(s') == KeyMap(s)[key := S.Indexed(vector, metadata)] && KeysOk(s')
  {
    hide KeyMap, KeysOk;
    var r := Registered(s, key, vector, metadata, level);
    RegisteredIsStalled(s, key, vector, metadata, level);
    StalledKeyMap(s, key, vector, metadata, level, r);
    MovedEntryKeyMap(r, 0, level);
  }

  lemma FaultedKeeps(s: State, key: string, vector: Vector, metadata: Metadata, level: nat)
    requires Faults(s, key, level)
    ensures var s' := Faulted(s, key, vector, metadata, level);
      s'.ef == s.ef && s'.entryPoint == s.entryPoint && |s'.graph| == |s.graph| + 1
  {
  }

  /** Every Delete of the server removes its key, unless it blocks before it. */
  lemma DeletingRefines(x: Served, key: string, x': Served, done: bool)
    requires Sound(x) && Deleting(x, key, x', done)
    ensures Sound(x') && x'.state.config == x.state.config && x'.state.ef == x.state.ef
    ensures if !done && x'.state == x.state then true else KeyMap(x'.state) == KeyMap(x.state) - {key}
  {
    hide Elected, KeysOk, Deleted;
    var s := x.state;
    if !x.closed {
      DeletedKeyMap(s, key);
      DeletedInRange(s, key);
      if key !in s.idMap {
        assert KeyMap(s) - {key} == KeyMap(s);
      } else if s.idMap[key] in x.held {
        assert KeyMap(x'.state) == KeyMap(s) - {key};
      }
    }
  }

  lemma DeletedInRange(s: State, key: string)
    requires KeysOk(s) && (s.graph != [] ==> 0 <= s.entryPoint < |s.graph|)
    ensures var s' := Deleted(s, key); s'.ef == s.ef && (s'.graph != [] ==> 0 <= s'.entryPoint < |s'.graph|)
  {
    if key in s.idMap {
      var id := s.idMap[key];
      ElectedInRange(s.graph[id := s.graph[id].(deleted := true)], s.reverseMap, 0);
    }
  }

  // ---------- when a call comes back ----------

  /** Well formed with sound parameters, no lock left held, and all vectors of one dimension. */
  ghost predicate Open(x: Served, dim: nat) {
    && x.held == NO_LOCKS && !x.closed && WellFormed(x.state) && x.state.maxLayer <= MAX_LEVEL
    && Sturdy(x.state.config) && Uniform(x.state.graph, dim)
  }

  /** Open, and the entry point on the highest layer: everything a caller can check before an Insert. */
  ghost predicate Fit(x: Served, dim: nat) {
    Open(x, dim) && EntryOnTop(x.state)
  }

  lemma InsertedIsUniform(metric: Metric, s: State, key: string, vector: Vector, metadata: Metadata, level: nat,
                          log: InsertLog, s': State)
    requires Inserts(metric, s, key, vector, metadata, level, log, s') && Uniform(s.graph, |vector|)
    ensures Uniform(s'.graph, |vector|)
  {
    hide Inserts;
    if key in s.idMap {
      assert s' == Updated(s, key, vector, metadata) by {
        UpdateInserted(metric, s, key, vector, metadata, level, log, s');
      }
    } else {
      InsertedIsStalled(metric, s, key, vector, metadata, level, log, s');
      var r := Registered(s, key, vector, metadata, level);
      forall i | 0 <= i < |s'.graph| ensures |s'.graph[i].vector| == |vector| {
        assert s'.graph[i].vector == r.graph[i].vector;
      }
    }
  }

  lemma UpdateInserted(metric: Metric, s: State, key: string, vector: Vector, metadata: Metadata, level: nat,
                       log: InsertLog, s': State)
    requires Inserts(metric, s, key, vector, metadata, level, log, s') && key in s.idMap
    ensures 0 <= s.idMap[key] < |s.graph| && s' == Updated(s, key, vector, metadata)
  {
  }

  /** Into an open index of its dimension an Insert comes back unless it faults, and leaves it open,
      and its entry point on the highest layer if it was there. */
  lemma OpenInserts(metric: Metric, x: Served, key: string, vector: Vector, metadata: Metadata, level: int, x': Served,
                    done: bool)
    requires Open(x, |vector|) && Drawn(x.state.config, level) && !Faults(x.state, key, level)
    requires Inserting(metric, x, key, vector, metadata, level, x', done)
    ensures done && Open(x', |vector|) && (EntryOnTop(x.state) ==> EntryOnTop(x'.state))
  {
    hide Inserts, WellFormed, EntryOnTop, Stalled, Faulted, Faults;
    var s := x.state;
    var log := InsertedHow(metric, x, key, vector, metadata, level, x', done);
    InsertKeepsWellFormed(metric, s, key, vector, metadata, level, log, x'.state);
    InsertGrows(metric, s, key, vector, metadata, level, log, x'.state);
    InsertedIsUniform(metric, s, key, vector, metadata, level, log, x'.state);
  }

  /** Into an index fit for its dimension an Insert comes back, whatever the level drawn, and
      leaves it fit. */
  lemma FitInserts(metric: Metric, x: Served, key: string, vector: Vector, metadata: Metadata, level: int, x': Served,
                   done: bool)
    requires Fit(x, |vector|) && Drawn(x.state.config, level)
    requires Inserting(metric, x, key, vector, metadata, level, x', done)
    ensures done && Fit(x', |vector|)
  {
    hide Inserting, EntryOnTop, WellFormed;
    NeverFaults(x.state, key, level);
    OpenInserts(metric, x, key, vector, metadata, level, x', done);
  }

  lemma NeverFaults(s: State, key: string, level: nat)
    requires EntryOnTop(s)
    ensures !Faults(s, key, level)
    ensures s.graph != [] ==> 0 <= s.entryPoint < |s.graph|
  {
  }

  /** All that comes back is an Insert in the sense of Inserts. */
  lemma InsertedHow(metric: Metric, x: Served, key: string, vector: Vector, metadata: Metadata, level: nat,
                    x': Served, done: bool) returns (log: InsertLog)
    requires Open(x, |vector|) && Inserting(metric, x, key, vector, metadata, level, x', done)
    requires !Faults(x.state, key, level)
    ensures done && x'.held == NO_LOCKS && !x'.closed
    ensures Inserts(metric, x.state, key, vector, metadata, level, log, x'.state)
  {
    hide WellFormed, EntryOnTop, Faults, Rounds, Locates;
    if key !in x.state.idMap && x.state.graph != [] {
      log :| Inserts(metric, x.state, key, vector, metadata, level, log, x'.state);
    } else {
      log := InsertLog(Start, Start);
    }
  }

  /** From an open index a Delete comes back, and leaves it open. */
  lemma OpenDeletes(x: Served, dim: nat, key: string, x': Served, done: bool)
    requires Open(x, dim) && Deleting(x, key, x', done)
    ensures done && Open(x', dim)
    ensures |x.state.reverseMap| == |x.state.graph| && x'.state == Deleted(x.state, key)
  {
    hide WellFormed, Deleted;
    DeleteKeepsWellFormed(x.state, key);
    KeysMatch(x.state);
    DeletedIsUniform(x.state, key, dim);
    if key !in x.state.idMap {
      NothingDeleted(x.state, key);
    }
  }

  /** From an index fit for its dimension a Delete comes back; it leaves it fit exactly if the
      node that inherits the entry point is on the highest layer. */
  lemma FitDeletes(x: Served, dim: nat, key: string, x': Served, done: bool)
    requires Fit(x, dim) && Deleting(x, key, x', done)
    ensures done && (Fit(x', dim) <==> KeepsEntry(x.state, key))
  {
    hide WellFormed, EntryOnTop, Deleted, KeepsEntry, Deleting;
    OpenDeletes(x, dim, key, x', done);
    DeleteKeepsEntryExactly(x.state, key);
  }

  lemma KeysMatch(s: State)
    requires WellFormed(s)
    ensures |s.reverseMap| == |s.graph|
  {
  }

  lemma NothingDeleted(s: State, key: string)
    requires key !in s.idMap && |s.reverseMap| == |s.graph|
    ensures Deleted(s, key) == s
  {
  }

  lemma DeletedIsUniform(s: State, key: string, dim: nat)
    requires |s.reverseMap| == |s.graph| && Uniform(s.graph, dim)
    ensures var s' := Deleted(s, key); Uniform(s'.graph, dim) && s'.maxLayer == s.maxLayer && s'.config == s.config
  {
  }

  /** What the method Insert does to an index of one dimension is what a call of the server does. */
  lemma InsertIsServed(metric: Metric, s: State, key: string, vector: Vector, metadata: Metadata, level: nat,
                       log: InsertLog, s': State)
    requires WellFormed(s) && Uniform(s.graph, |vector|) && s.config.mmax0 <= MAX_CAPACITY
    ensures Faults(s, key, level) ==>
      Inserting(metric, Served(s, NO_LOCKS, false), key, vector, metadata, level,
                Served(Faulted(s, key, vector, metadata, level), {s.entryPoint, |s.graph|}, false), false)
    ensures !Faults(s, key, level) && Inserts(metric, s, key, vector, metadata, level, log, s') ==>
      Inserting(metric, Served(s, NO_LOCKS, false), key, vector, metadata, level, Served(s', NO_LOCKS, false), true)
  {
    hide GraphOk, KeysOk, Rounds, Locates;
    assert NO_LOCKS + {s.entryPoint, |s.graph|} == {s.entryPoint, |s.graph|};
  }

  /** Some draw makes the Insert of a new key die. */
  ghost predicate CanDie(metric: Metric, x: Served, key: string, vector: Vector, metadata: Metadata) {
    exists level, x' ::
      Drawn(x.state.config, level) && Inserting(metric, x, key, vector, metadata, level, x', false)
  }

  /** In a well-formed index with vectors of one dimension, the Insert of a new key whose vector is
      not shorter can die exactly if its parameters are not sound, or, unless the index is empty,
      its dimension is another or the entry point is not on the highest layer. */
  lemma CanDieExactly(metric: Metric, x: Served, key: string, vector: Vector, metadata: Metadata, dim: nat)
    requires x.held == NO_LOCKS && !x.closed && WellFormed(x.state) && x.state.maxLayer <= MAX_LEVEL
    requires Uniform(x.state.graph, dim) && key !in x.state.idMap && dim <= |vector|
    ensures var s := x.state;
      CanDie(metric, x, key, vector, metadata) <==>
        s.config.m < 2 || (s.graph != [] && (|vector| != dim || !EntryOnTop(s) || s.config.mmax0 > MAX_CAPACITY))
  {
    hide Inserts, GraphOk, KeysOk, Stalled, Faulted;
    var s := x.state;
    if s.config.m < 2 {
      assert Inserting(metric, x, key, vector, metadata, -1, x.(closed := true), false);
    } else if s.graph != [] && |vector| != dim {
      var x' := x.(state := Registered(s, key, vector, metadata, 0));
      assert Inserting(metric, x, key, vector, metadata, 0, x', false);
    } else if s.graph != [] && s.config.mmax0 > MAX_CAPACITY {
      LargeDies(metric, x, key, vector, metadata);
    } else if s.graph != [] && !EntryOnTop(s) {
      assert Faults(s, key, s.maxLayer);
      var x' := Served(Faulted(s, key, vector, metadata, s.maxLayer), x.held + {s.entryPoint, |s.graph|}, false);
      assert Inserting(metric, x, key, vector, metadata, s.maxLayer, x', false);
    } else {
      forall level, x' | Drawn(s.config, level)
        ensures !Inserting(metric, x, key, vector, metadata, level, x', false)
      {
        NeverFaults(s, key, level);
      }
    }
  }

  /** At the ground layer the list for the neighbours cannot be allocated. */
  lemma LargeDies(metric: Metric, x: Served, key: string, vector: Vector, metadata: Metadata)
    requires x.held == NO_LOCKS && !x.closed && WellFormed(x.state) && key !in x.state.idMap && x.state.graph != []
    requires x.state.config.mmax0 > MAX_CAPACITY && x.state.config.m >= 2
    requires |vector| <= |x.state.graph[x.state.entryPoint].vector|
    ensures CanDie(metric, x, key, vector, metadata)
  {
    hide Inserts, KeysOk, Stalled, Faulted;
    var s := x.state;
    RegisteredIsStalled(s, key, vector, metadata, 0);
    var x' := x.(state := Registered(s, key, vector, metadata, 0));
    assert s.graph[s.entryPoint].links != [];
    assert Inserting(metric, x, key, vector, metadata, 0, x', false);
  }
}
