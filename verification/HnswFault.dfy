/** The history in which a Delete makes a later Insert index out of range, as calls. */
module HnswFault {
  import opened HnswGraph
  import opened HnswIndex
  import opened HnswSpec
  import opened HnswInvariant
  import opened HnswInsert
  import opened HnswQuery
  import opened HnswRuns

  lemma FirstStep(metric: Metric, m: int, efConstruction: int, key: string, vector: Vector, level: nat,
                  log: InsertLog, s: State)
    requires level <= MAX_LEVEL && Inserts(metric, Empty(m, efConstruction), key, vector, map[], level, log, s)
    ensures Step(metric, Empty(m, efConstruction), InsertOp(key, vector, map[], level, log), s)
    ensures WellFormed(s) && EntryOnTop(s)
  {
    EmptyIsWellFormed(m, efConstruction);
    StepKeepsWellFormed(metric, Empty(m, efConstruction), InsertOp(key, vector, map[], level, log), s);
  }

  /** A new index with "a" on layer 1, its entry point, and "b" on the ground layer. */
  method Build(metric: Metric, m: int, efConstruction: int, u: Vector, v: Vector) returns (idx: Index)
    ensures fresh(idx) && (forall i {:trigger idx.nodes[i]} :: 0 <= i < |idx.nodes| ==> fresh(idx.nodes[i]))
    ensures idx.Valid() && WellFormed(StateOf(idx)) && TwoNodes(StateOf(idx))
  {
    hide Inserts, Faults, WellFormed, EntryOnTop, Faulted, StateOf, Empty, HnswRuns.Step, Index.Graph, TwoNodes;
    idx := NewIndex(metric, m, efConstruction);
    EmptyIsWellFormed(m, efConstruction);
    NoFault(Empty(m, efConstruction), "a", 1);
    var a, b;
    ghost var logA, logB;
    a, logA := Insert(idx, "a", u, map[], 1);
    ghost var s1 := StateOf(idx);
    FirstStep(metric, m, efConstruction, "a", u, 1, logA, s1);
    NoFault(s1, "b", 0);
    ghost var nodes := idx.nodes;
    forall i | 0 <= i < |nodes| ensures fresh(nodes[i]) {
      assert nodes[i] in idx.nodes;
    }
    b, logB := Insert(idx, "b", v, map[], 0);
    ghost var s2 := StateOf(idx);
    NextStep(metric, s1, InsertOp("b", v, map[], 0, logB), s2);
    TwoInserts(metric, m, efConstruction, InsertOp("a", u, map[], 1, logA), s1, InsertOp("b", v, map[], 0, logB), s2);
    forall i | 0 <= i < |idx.nodes| ensures fresh(idx.nodes[i]) {
      assert idx.nodes[i] in idx.nodes;
    }
  }

  /** Whatever the parameters and vectors: two inserts, on layers 1 and 0, the deletion of the
      first, and one more insert on layer 1. */
  method DeleteThenInsert(metric: Metric, m: int, efConstruction: int, u: Vector, v: Vector, w: Vector)
    returns (outcome: Outcome)
    ensures outcome.OutOfRange?
  {
    hide Inserts, Faults, WellFormed, EntryOnTop, Faulted, StateOf, Index.Graph, TwoNodes, Deleted;
    var idx := Build(metric, m, efConstruction, u, v);
    ghost var s := StateOf(idx);
    var existed := Delete(idx, "a");
    TwoNodesFault(s);
    DeleteKeepsWellFormed(s, "a");
    ghost var log;
    outcome, log := Insert(idx, "c", w, map[], 1);
  }

  lemma NoFault(s: State, key: string, level: nat)
    requires WellFormed(s) && EntryOnTop(s)
    ensures !Faults(s, key, level)
  {
  }

  lemma NextStep(metric: Metric, s: State, op: Op, s': State)
    requires WellFormed(s) && EntryOnTop(s) && op.InsertOp? && op.level <= MAX_LEVEL
    requires Inserts(metric, s, op.key, op.vector, op.metadata, op.level, op.log, s')
    ensures Step(metric, s, op, s') && WellFormed(s')
  {
    NoFault(s, op.key, op.level);
    StepKeepsWellFormed(metric, s, op, s');
  }
}
