/** Whole histories of an index: what holds after any sequence of Insert, Delete and SetEF,
    and what a Search then returns. */
module HnswRuns {
  import opened HnswGraph
  import opened HnswIndex
  import opened HnswSpec
  import opened HnswInvariant

  datatype Op =
    | InsertOp(key: string, vector: Vector, metadata: Metadata, level: nat, log: InsertLog)
    | DeleteOp(key: string)
    | SetEfOp(ef: int)

  datatype Event = Event(op: Op, after: State)

  /** One operation that does not fault; an insert that faults ends the history. */
  ghost predicate Step(metric: Metric, s: State, op: Op, s': State) {
    match op
    case InsertOp(key, vector, metadata, level, log) =>
      level <= MAX_LEVEL && !Faults(s, key, level) && Inserts(metric, s, key, vector, metadata, level, log, s')
    case DeleteOp(key) => |s.reverseMap| == |s.graph| && s' == Deleted(s, key)
    case SetEfOp(ef) => s' == s.(ef := if ef < 1 then s.ef else ef)
  }

  ghost function Last(start: State, run: Trail<Event>): State {
    if run.Start? then start else run.last.after
  }

  ghost predicate Runs(metric: Metric, start: State, run: Trail<Event>) {
    run.Then? ==> Runs(metric, start, run.before) && Step(metric, Last(start, run.before), run.last.op, run.last.after)
  }

  ghost predicate InsertsOnly(run: Trail<Event>) {
    run.Then? ==> InsertsOnly(run.before) && !run.last.op.DeleteOp?
  }

  lemma EmptyIsWellFormed(m: int, efConstruction: int)
    ensures WellFormed(Empty(m, efConstruction)) && EntryOnTop(Empty(m, efConstruction))
    ensures Empty(m, efConstruction).maxLayer <= MAX_LEVEL
  {
  }

  lemma StepKeepsWellFormed(metric: Metric, s: State, op: Op, s': State)
    requires WellFormed(s) && Step(metric, s, op, s')
    ensures WellFormed(s') && |s.graph| <= |s'.graph| && s'.config == s.config
    ensures s.maxLayer <= MAX_LEVEL ==> s'.maxLayer <= MAX_LEVEL
    ensures EntryOnTop(s) && !op.DeleteOp? ==> EntryOnTop(s')
  {
    match op
    case InsertOp(key, vector, metadata, level, log) =>
      InsertKeepsWellFormed(metric, s, key, vector, metadata, level, log, s');
      InsertGrows(metric, s, key, vector, metadata, level, log, s');
    case DeleteOp(key) => DeleteKeepsWellFormed(s, key);
    case SetEfOp(ef) =>
  }

  /** After any history: the graph is well formed and the key maps agree with the tombstones. */
  lemma {:induction false} RunsAreWellFormed(metric: Metric, m: int, efConstruction: int, run: Trail<Event>)
    requires Runs(metric, Empty(m, efConstruction), run)
    ensures WellFormed(Last(Empty(m, efConstruction), run)) && Last(Empty(m, efConstruction), run).maxLayer <= MAX_LEVEL
  {
    if run.Start? {
      EmptyIsWellFormed(m, efConstruction);
    } else {
      RunsAreWellFormed(metric, m, efConstruction, run.before);
      StepKeepsWellFormed(metric, Last(Empty(m, efConstruction), run.before), run.last.op, run.last.after);
    }
  }

  /** The parameters an index is built with, and keeps. */
  function Built(m: int, efConstruction: int): Config {
    var m' := if m <= 0 then 16 else m;
    Config(m', 2 * m', if efConstruction <= 0 then 200 else efConstruction)
  }

  lemma {:induction false} ConfigStays(metric: Metric, m: int, efConstruction: int, run: Trail<Event>)
    requires Runs(metric, Empty(m, efConstruction), run)
    ensures Last(Empty(m, efConstruction), run).config == Built(m, efConstruction)
  {
    hide WellFormed, Step;
    if run.Then? {
      RunsAreWellFormed(metric, m, efConstruction, run.before);
      StepKeepsWellFormed(metric, Last(Empty(m, efConstruction), run.before), run.last.op, run.last.after);
      ConfigStays(metric, m, efConstruction, run.before);
    }
  }

  /** Without deletions the entry point stays on the highest layer, so no Insert can fault. */
  lemma {:induction false} InsertsNeverFault(metric: Metric, m: int, efConstruction: int, run: Trail<Event>,
                                             key: string, level: nat)
    requires Runs(metric, Empty(m, efConstruction), run) && InsertsOnly(run)
    ensures EntryOnTop(Last(Empty(m, efConstruction), run))
    ensures !Faults(Last(Empty(m, efConstruction), run), key, level)
  {
    if run.Then? {
      RunsAreWellFormed(metric, m, efConstruction, run.before);
      InsertsNeverFault(metric, m, efConstruction, run.before, key, level);
      StepKeepsWellFormed(metric, Last(Empty(m, efConstruction), run.before), run.last.op, run.last.after);
    }
  }

  /** In a well-formed index some level that can be drawn makes the next Insert of a new key
      fault exactly when the entry point is below the highest layer in use. */
  lemma CanFaultExactly(s: State, key: string)
    requires WellFormed(s) && s.maxLayer <= MAX_LEVEL && key !in s.idMap
    ensures (exists level: nat :: level <= MAX_LEVEL && Faults(s, key, level)) <==> !EntryOnTop(s)
  {
    if !EntryOnTop(s) {
      assert Faults(s, key, s.maxLayer);
    }
  }

  /** Node i is the first that is live, has a key, and is not the node of `key`. */
  ghost predicate Inherits(s: State, key: string, i: NodeId)
    requires key in s.idMap && |s.reverseMap| == |s.graph|
  {
    Eligible(s, key, i) && forall j :: 0 <= j < i ==> !Eligible(s, key, j)
  }

  ghost predicate Eligible(s: State, key: string, i: NodeId)
    requires key in s.idMap && |s.reverseMap| == |s.graph|
  {
    0 <= i < |s.graph| && i != s.idMap[key] && !s.graph[i].deleted && s.reverseMap[i] != ""
  }

  /** Seen before a Delete: the key is not that of the entry point, or the node that inherits is on
      the highest layer, or node 0 is if none inherits. */
  ghost predicate KeepsEntry(s: State, key: string)
    requires |s.reverseMap| == |s.graph|
  {
    key in s.idMap && s.idMap[key] == s.entryPoint && 0 <= s.entryPoint < |s.graph| ==>
      && (forall i :: Inherits(s, key, i) ==> s.graph[i].Level() == s.maxLayer)
      && ((forall i :: !Eligible(s, key, i)) ==> s.graph[0].Level() == s.maxLayer)
  }

  lemma {:induction false} ElectedIsFirst(g: Graph, keys: seq<string>, i: nat)
    requires |keys| == |g|
    ensures var e := Elected(g, keys, i);
      || (i <= e < |g| && keys[e] != "" && !g[e].deleted && forall j :: i <= j < e ==> keys[j] == "" || g[j].deleted)
      || (e == 0 && forall j :: i <= j < |g| ==> keys[j] == "" || g[j].deleted)
    decreases |g| - i
  {
    if i < |g| && !(keys[i] != "" && !g[i].deleted) {
      ElectedIsFirst(g, keys, i + 1);
    }
  }

  /** Delete leaves the entry point on the highest layer exactly when the state before says so. */
  lemma DeleteKeepsEntryExactly(s: State, key: string)
    requires WellFormed(s) && EntryOnTop(s)
    ensures EntryOnTop(Deleted(s, key)) <==> KeepsEntry(s, key)
  {
    hide GraphOk;
    if key in s.idMap && s.idMap[key] == s.entryPoint {
      var id := s.idMap[key];
      var g := s.graph[id := s.graph[id].(deleted := true)];
      var e := Elected(g, s.reverseMap, 0);
      ElectedIsFirst(g, s.reverseMap, 0);
      forall j | 0 <= j < |g| ensures Eligible(s, key, j) <==> s.reverseMap[j] != "" && !g[j].deleted {}
      assert g[e].Level() == s.graph[e].Level();
      if i :| Eligible(s, key, i) {
        assert Inherits(s, key, e);
      }
    }
  }

  /** Two live nodes, the entry point "a" on layer 1 and "b" on the ground layer. */
  ghost predicate TwoNodes(s: State) {
    && |s.graph| == 2 && s.entryPoint == 0 && s.maxLayer == 1
    && s.graph[1].Level() == 0 && !s.graph[1].deleted
    && s.idMap == map["a" := 0, "b" := 1] && s.reverseMap == ["a", "b"]
  }

  lemma TwoNodesFault(s: State)
    requires TwoNodes(s)
    ensures Faults(Deleted(s, "a"), "c", 1)
  {
    var g := s.graph[0 := s.graph[0].(deleted := true)];
    assert Elected(g, s.reverseMap, 0) == Elected(g, s.reverseMap, 1) == 1;
  }

  lemma TwoInserts(metric: Metric, m: int, efConstruction: int, a: Op, s1: State, b: Op, s2: State)
    requires a.InsertOp? && a.key == "a" && a.level == 1 && Step(metric, Empty(m, efConstruction), a, s1)
    requires b.InsertOp? && b.key == "b" && b.level == 0 && Step(metric, s1, b, s2)
    ensures TwoNodes(s2)
  {
    var s0 := Empty(m, efConstruction);
    EmptyIsWellFormed(m, efConstruction);
    StepKeepsWellFormed(metric, s0, a, s1);
    assert s1.idMap == map["a" := 0] && s1.reverseMap == ["a"];
    InsertLevels(metric, s1, b.key, b.vector, b.metadata, b.level, b.log, s2);
  }

  /** Deleting the first of two nodes, the only one on layer 1, makes the next insert on layer 1 fault. */
  lemma DeleteCanBreakInsert(metric: Metric, m: int, efConstruction: int, a: Op, s1: State, b: Op, s2: State)
    requires a.InsertOp? && a.key == "a" && a.level == 1 && Step(metric, Empty(m, efConstruction), a, s1)
    requires b.InsertOp? && b.key == "b" && b.level == 0 && Step(metric, s1, b, s2)
    ensures |s2.reverseMap| == |s2.graph| && Faults(Deleted(s2, "a"), "c", 1)
  {
    TwoInserts(metric, m, efConstruction, a, s1, b, s2);
    TwoNodesFault(s2);
  }

  /** An Insert of a new key keeps the levels and tombstones of the nodes and adds one node at its level. */
  lemma InsertLevels(metric: Metric, s: State, key: string, vector: Vector, metadata: Metadata, level: nat,
                     log: InsertLog, s': State)
    requires WellFormed(s) && key !in s.idMap && !Faults(s, key, level)
    requires Inserts(metric, s, key, vector, metadata, level, log, s')
    ensures |s'.graph| == |s.graph| + 1
    ensures forall i :: 0 <= i < |s.graph| ==>
      s'.graph[i].Level() == s.graph[i].Level() && s'.graph[i].deleted == s.graph[i].deleted
    ensures s'.graph[|s.graph|].Level() == level && !s'.graph[|s.graph|].deleted
    ensures s'.idMap == s.idMap[key := |s.graph|] && s'.reverseMap == s.reverseMap + [key]
  {
    var r := Registered(s, key, vector, metadata, level);
    RegisteredIsFresh(s, key, vector, metadata, level);
    if s.graph != [] {
      StartsOn(metric, s, key, vector, metadata, level, log.hops);
      ConnectsKeeps(metric, s.config, r.graph, |s.graph|, vector, [Reach(s.entryPoint, log.hops)],
                    Min(level, s.maxLayer), 0,
                    log.layers);
    }
  }

  lemma InsertGrows(metric: Metric, s: State, key: string, vector: Vector, metadata: Metadata, level: nat,
                    log: InsertLog, s': State)
    requires WellFormed(s) && !Faults(s, key, level)
    requires Inserts(metric, s, key, vector, metadata, level, log, s')
    ensures |s.graph| <= |s'.graph| && s'.config == s.config && s'.maxLayer <= Max(level, s.maxLayer)
  {
    if key !in s.idMap {
      InsertLevels(metric, s, key, vector, metadata, level, log, s');
    }
  }
}
