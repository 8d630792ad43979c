/** The locks of the index: idx.mu and one lock per node.  Threads go through the critical
    sections of search.go, index.go, node.go and snapshot.go; some waiting thread can always
    go on. */
module HnswLocks {
  type ThreadId = nat

  datatype Lock = IndexMu | NodeMu(id: nat)

  datatype Mode = Read | Write

  datatype Grip = Grip(lock: Lock, mode: Mode)

  /** The shapes of critical section: the index lock alone, a node lock alone, the two node
      locks taken to link `newer` and `other`, and a node lock inside the index lock. */
  datatype Section =
    | OnlyIndex(mode: Mode)
    | OnlyNode(id: nat, mode: Mode)
    | Pair(newer: nat, other: nat)
    | NodeInIndex(indexMode: Mode, id: nat, mode: Mode)

  /** The locks a section takes, in order: a pair is locked lower ID first. */
  function Grips(s: Section): seq<Grip> {
    match s
    case OnlyIndex(mode) => [Grip(IndexMu, mode)]
    case OnlyNode(id, mode) => [Grip(NodeMu(id), mode)]
    case Pair(newer, other) =>
      if newer > other then [Grip(NodeMu(other), Write), Grip(NodeMu(newer), Write)]
      else [Grip(NodeMu(newer), Write), Grip(NodeMu(other), Write)]
    case NodeInIndex(indexMode, id, mode) => [Grip(IndexMu, indexMode), Grip(NodeMu(id), mode)]
  }

  /** Insert skips a pair made of one node twice, which would lock itself out. */
  predicate Allowed(s: Section) {
    s.Pair? ==> s.newer != s.other
  }

  /** Outside any section, or inside one, holding its first `held` grips and possibly waiting for the next. */
  datatype Thread = Outside | Inside(section: Section, held: nat, waiting: bool)

  type System = map<ThreadId, Thread>

  ghost predicate Holds(t: Thread, g: Grip) {
    t.Inside? && exists k :: 0 <= k < t.held && k < |Grips(t.section)| && Grips(t.section)[k] == g
  }

  ghost predicate Wants(t: Thread, g: Grip) {
    t.Inside? && t.waiting && t.held < |Grips(t.section)| && Grips(t.section)[t.held] == g
  }

  ghost predicate Conflict(g: Grip, h: Grip) {
    g.lock == h.lock && (g.mode == Write || h.mode == Write)
  }

  /** j keeps i from g: it holds the lock, or it waits to write where i would read (a waiting
      writer keeps new readers of an RWMutex out). */
  ghost predicate Blocks(a: System, i: ThreadId, g: Grip, j: ThreadId, h: Grip) {
    && i in a && j in a && i != j && Wants(a[i], g) && Conflict(g, h)
    && (Holds(a[j], h) || (g.mode == Read && Wants(a[j], h)))
  }

  ghost predicate WaitsFor(a: System, i: ThreadId, j: ThreadId) {
    exists g, h :: Blocks(a, i, g, j, h)
  }

  ghost predicate Waiting(a: System, i: ThreadId) {
    i in a && exists g :: Wants(a[i], g)
  }

  // ---------- steps ----------

  ghost predicate Enters(t: Thread, t': Thread) {
    t.Outside? && t'.Inside? && Allowed(t'.section) && t'.held == 0 && t'.waiting
  }

  /** What the thread waits for is granted: nobody keeps it out. */
  ghost predicate Takes(a: System, i: ThreadId, t': Thread)
    requires i in a
  {
    && a[i].Inside? && a[i].waiting && t' == Inside(a[i].section, a[i].held + 1, false)
    && forall j :: j in a ==> !WaitsFor(a, i, j)
  }

  /** Inside a section, the thread waits for a further lock: the second of a pair, or the next
      node while it keeps the index lock. */
  ghost predicate Asks(t: Thread, t': Thread) {
    && t.Inside? && !t.waiting && t'.Inside? && t'.waiting && t'.held == t.held && Allowed(t'.section)
    && t.held < |Grips(t'.section)| && t.held <= |Grips(t.section)|
    && Grips(t'.section)[..t.held] == Grips(t.section)[..t.held]
  }

  /** The lock taken last is released. */
  ghost predicate Drops(t: Thread, t': Thread) {
    && t.Inside? && !t.waiting && t.held > 0
    && t' == if t.held == 1 then Outside else Inside(t.section, t.held - 1, false)
  }

  ghost predicate Next(a: System, b: System) {
    exists i :: i in a && i in b && b == a[i := b[i]]
      && (Enters(a[i], b[i]) || Takes(a, i, b[i]) || Asks(a[i], b[i]) || Drops(a[i], b[i]))
  }

  ghost predicate Initial(a: System) {
    forall i :: i in a ==> a[i] == Outside
  }

  ghost predicate Runs(run: seq<System>) {
    run != [] && Initial(run[0]) && forall k :: 0 < k < |run| ==> Next(run[k - 1], run[k])
  }

  // ---------- the order of the locks ----------

  function Rank(l: Lock): nat {
    match l
    case IndexMu => 0
    case NodeMu(id) => id + 1
  }

  ghost predicate ThreadOk(t: Thread) {
    t.Inside? ==> Allowed(t.section) && t.held <= |Grips(t.section)| && (t.waiting ==> t.held < |Grips(t.section)|)
  }

  /** No two threads hold a lock in conflicting modes. */
  ghost predicate Exclusive(a: System) {
    forall i, j, g, h {:trigger Holds(a[i], g), Holds(a[j], h)} ::
      i in a && j in a && i != j && Holds(a[i], g) && Holds(a[j], h) ==> !Conflict(g, h)
  }

  ghost predicate Ok(a: System) {
    Exclusive(a) && forall i :: i in a ==> ThreadOk(a[i])
  }

  lemma GripsAscend(s: Section)
    requires Allowed(s)
    ensures forall j, k :: 0 <= j < k < |Grips(s)| ==> Rank(Grips(s)[j].lock) < Rank(Grips(s)[k].lock)
  {
  }

  /** Only a granted lock is new; every other step holds no more than before. */
  lemma HeldBefore(a: System, i: ThreadId, t': Thread, g: Grip)
    requires i in a && ThreadOk(a[i]) && Holds(t', g)
    requires Enters(a[i], t') || Takes(a, i, t') || Asks(a[i], t') || Drops(a[i], t')
    ensures Holds(a[i], g) || (Takes(a, i, t') && Wants(a[i], g))
  {
    var k :| 0 <= k < t'.held && k < |Grips(t'.section)| && Grips(t'.section)[k] == g;
    if Asks(a[i], t') {
      assert Grips(a[i].section)[..t'.held][k] == g;
    }
  }

  lemma MoverExcludes(a: System, b: System, i: ThreadId, j: ThreadId, g: Grip, h: Grip)
    requires Ok(a) && i in a && i in b && b == a[i := b[i]] && j in a && j != i
    requires Enters(a[i], b[i]) || Takes(a, i, b[i]) || Asks(a[i], b[i]) || Drops(a[i], b[i])
    requires Holds(b[i], g) && Holds(b[j], h)
    ensures !Conflict(g, h) && !Conflict(h, g)
  {
    HeldBefore(a, i, b[i], g);
    if Holds(a[i], g) {
      assert Holds(a[j], h);
    } else {
      assert !WaitsFor(a, i, j);
      assert !Blocks(a, i, g, j, h);
    }
  }

  lemma NextIsOk(a: System, b: System)
    requires Ok(a) && Next(a, b)
    ensures Ok(b)
  {
    var i :| i in a && i in b && b == a[i := b[i]]
      && (Enters(a[i], b[i]) || Takes(a, i, b[i]) || Asks(a[i], b[i]) || Drops(a[i], b[i]));
    forall j, k, g, h | j in b && k in b && j != k && Holds(b[j], g) && Holds(b[k], h) ensures !Conflict(g, h) {
      if j == i {
        MoverExcludes(a, b, i, k, g, h);
      } else if k == i {
        MoverExcludes(a, b, i, j, h, g);
      } else {
        assert Holds(a[j], g) && Holds(a[k], h);
      }
    }
  }

  /** In every run two threads never hold a lock in conflicting modes. */
  lemma {:induction false} RunsAreOk(run: seq<System>)
    requires Runs(run)
    ensures Ok(run[|run| - 1])
  {
    if |run| > 1 {
      RunsAreOk(run[..|run| - 1]);
      NextIsOk(run[|run| - 2], run[|run| - 1]);
    }
  }

  // ---------- no deadlock ----------

  /** Grows along every wait: by lock, and at one lock from readers to writers. */
  ghost function Height(t: Thread): int {
    if t.Inside? && t.waiting && t.held < |Grips(t.section)| then
      var g := Grips(t.section)[t.held];
      2 * Rank(g.lock) + if g.mode == Write then 1 else 0
    else -1
  }

  lemma WaitsGoUp(a: System, i: ThreadId, j: ThreadId)
    requires Ok(a) && WaitsFor(a, i, j) && Waiting(a, j)
    ensures Height(a[i]) < Height(a[j])
  {
    var g, h :| Blocks(a, i, g, j, h);
    GripsAscend(a[j].section);
    if Holds(a[j], h) {
      var k :| 0 <= k < a[j].held && k < |Grips(a[j].section)| && Grips(a[j].section)[k] == h;
      assert Rank(h.lock) < Rank(Grips(a[j].section)[a[j].held].lock);
    }
  }

  /** A chain of waiting threads, each waiting for the next. */
  ghost predicate Chain(a: System, p: seq<ThreadId>) {
    && (forall k :: 0 <= k < |p| ==> Waiting(a, p[k]))
    && (forall k :: 0 < k < |p| ==> WaitsFor(a, p[k - 1], p[k]))
  }

  lemma {:induction false} ChainGoesUp(a: System, p: seq<ThreadId>)
    requires Ok(a) && Chain(a, p) && |p| > 1
    ensures Height(a[p[0]]) < Height(a[p[|p| - 1]])
  {
    var n := |p| - 1;
    assert WaitsFor(a, p[n - 1], p[n]) && Waiting(a, p[n]) && Waiting(a, p[0]) && Waiting(a, p[n - 1]);
    WaitsGoUp(a, p[n - 1], p[n]);
    if n > 1 {
      ChainGoesUp(a, p[..n]);
    }
  }

  /** In every run no thread waits, directly or through others, for itself. */
  lemma NoCycle(run: seq<System>, p: seq<ThreadId>)
    requires Runs(run) && Chain(run[|run| - 1], p) && |p| > 1
    ensures p[0] != p[|p| - 1]
  {
    RunsAreOk(run);
    ChainGoesUp(run[|run| - 1], p);
  }

  lemma {:induction false} HighestWaiting(a: System, ts: set<ThreadId>) returns (i: ThreadId)
    requires ts != {} && forall j :: j in ts ==> j in a && Waiting(a, j)
    ensures i in ts && forall j :: j in ts ==> Height(a[j]) <= Height(a[i])
  {
    var x :| x in ts;
    if ts == {x} {
      i := x;
    } else {
      assert ts - {x} != {};
      i := HighestWaiting(a, ts - {x});
      if Height(a[i]) < Height(a[x]) {
        i := x;
      }
    }
  }

  /** In every run, if anyone waits, someone waits only for threads that do not wait themselves. */
  lemma SomeoneGoesOn(run: seq<System>, i: ThreadId) returns (j: ThreadId)
    requires Runs(run) && Waiting(run[|run| - 1], i)
    ensures var a := run[|run| - 1]; Waiting(a, j) && forall k :: k in a && WaitsFor(a, j, k) ==> !Waiting(a, k)
  {
    var a := run[|run| - 1];
    RunsAreOk(run);
    var ts := set k | k in a && Waiting(a, k);
    assert i in ts;
    j := HighestWaiting(a, ts);
    forall k | k in a && WaitsFor(a, j, k) ensures !Waiting(a, k) {
      if Waiting(a, k) {
        assert k in ts;
        WaitsGoUp(a, j, k);
      }
    }
  }
}
