/** Runs in which a handler dies in an index, from commands that any client can send, and a run
    whose log kills the server that replays it. */
module ServingFaults {
  import opened Text
  import opened Decimal
  import opened CommandText
  import opened Vmset
  import opened StoreSpec
  import opened ServerSpec
  import opened Agreement
  import opened HnswServed
  import opened Serving
  import opened ServingRuns
  import Replay
  import opened ServingLedger
  import opened ServingReplay
  import opened ServingRisk
  import opened ServingRestart
  import H = HnswSpec
  import G = HnswGraph
  import I = HnswInvariant

  /** The index takes calls, and its entry point has a shorter vector than the one to come. */
  ghost predicate Shorter(x: Served, e: BatchEntry) {
    && !x.closed && x.held == NO_LOCKS && e.id !in x.state.idMap
    && x.state.graph != [] && 0 <= x.state.entryPoint < |x.state.graph|
    && |x.state.graph[x.state.entryPoint].vector| < |e.vector|
  }

  /** The first insertion of a batch dies, whatever level it draws, and leaves at most its own key. */
  lemma LongVectorDies(metric: G.Metric, x: Served, batch: seq<BatchEntry>, fate: Fate, x': Served)
    requires batch != [] && Shorter(x, batch[0]) && Finishes(metric, x, batch, fate, x')
    ensures fate.Dies? && fate.k == 0 && (fate.takes <==> x'.state != x.state)
    ensures x'.state == x.state || x'.state.idMap == x.state.idMap[batch[0].id := |x.state.graph|]
  {
    if fate.Answers? {
      var calls :| Loads(metric, x, batch, |batch|, calls) && x' == Latest(x, calls);
      FirstLoads(metric, x, batch, |batch|, calls);
    } else {
      var calls :|
        && Loads(metric, x, batch, fate.k, calls)
        && (exists call :: Serving.Inserts(metric, Latest(x, calls), batch[fate.k], call, false) && x' == call.after)
        && (fate.takes <==> x'.state != Latest(x, calls).state);
      if fate.k > 0 {
        FirstLoads(metric, x, batch, fate.k, calls);
      }
      assert Latest(x, calls) == x;
    }
  }

  lemma {:induction false} FirstLoads(metric: G.Metric, x: Served, batch: seq<BatchEntry>, k: nat,
                                      calls: G.Trail<Call>)
    requires 0 < k <= |batch| && Loads(metric, x, batch, k, calls) && Shorter(x, batch[0])
    ensures false
  {
    if k > 1 {
      FirstLoads(metric, x, batch, k - 1, calls.before);
    }
  }

  /** A VMSET into an index whose entry point has a shorter vector dies with its first new entry;
      all its vectors are in the store, and those after the first in no index. */
  lemma LongBatchParts(metric: G.Metric, n: Numerals, w: World, now: Time, args: seq<string>, fate: Fate,
                       served: Indexes, served': Indexes, i: nat)
    requires Represents(served, w.indexes) && DefaultsAhead(w.vectors)
    requires Serves(metric, n, w, now, true, Command("VMSET", args), fate, served, served')
    requires Decode(n, args).Entries? && args[0] in served
    requires var batch := BatchOf(Decode(n, args).entries);
      && 0 < i < |batch| && LastOf(batch, batch[i].id, |batch|) == i && batch[i].id != batch[0].id
      && batch[i].id !in served[args[0]].state.idMap && Shorter(served[args[0]], batch[0])
    ensures var batch, r := BatchOf(Decode(n, args).entries), Execute(n, w, now, true, Command("VMSET", args), fate);
      && r.1.Silence?
      && Shown(r.0.vectors, now, args[0], batch[i].id) == Some(Indexed(batch[i].vector, batch[i].metadata))
      && args[0] in r.0.indexes && Held(r.0.indexes, args[0], batch[i].id) == None
  {
    hide Finishes, Represents, Decode, PutAll, InsertAll, NamespaceOf, DefaultsAhead, LastOf, Shorter, Sound;
    Capitals("VMSET");
    DecodedDims(n, args);
    var ns, batch := args[0], BatchOf(Decode(n, args).entries);
    var x' :| Finishes(metric, served[ns], batch, fate, x') && served' == served[ns := x'];
    LongVectorDies(metric, served[ns], batch, fate, x');
    AllPut(NamespaceOf(w.vectors, ns), now, Atoi(args[1]).value, batch, |batch|);
    BatchIsShown(w.vectors, now, ns, Atoi(args[1]).value, batch, i);
    ServesRefines(metric, n, w, now, true, Command("VMSET", args), fate, served, served');
    Represented(served, w.indexes, ns);
    Represented(served', Execute(n, w, now, true, Command("VMSET", args), fate).0.indexes, ns);
  }

  lemma Represented(served: Indexes, indexes: map<string, IndexState>, ns: string)
    requires Represents(served, indexes)
    ensures ns in served <==> ns in indexes
    ensures ns in served ==> indexes[ns].entries == KeyMap(served[ns].state)
  {
  }

  /** A VSET into such an index dies too: its vector is stored and never logged. */
  lemma LongVectorIsLost(metric: G.Metric, n: Numerals, w: World, now: Time, args: seq<string>, fate: Fate,
                         served: Indexes, served': Indexes)
    requires Represents(served, w.indexes) && DefaultsAhead(w.vectors)
    requires Serves(metric, n, w, now, true, Command("VSET", args), fate, served, served')
    requires ParseVSet(n, args).Some?
    requires var a := ParseVSet(n, args).value;
      a.ns in served && Shorter(served[a.ns], BatchEntry(a.id, a.vector, a.metadata))
    ensures var a, cmd := ParseVSet(n, args).value, Command("VSET", args);
      && Execute(n, w, now, true, cmd, fate).1.Silence? && Logged(n, w, now, true, cmd, fate) == []
      && Shown(Execute(n, w, now, true, cmd, fate).0.vectors, now, a.ns, a.id)
         == Some(Indexed(a.vector, a.metadata))
  {
    hide Finishes, Represents, ParseVSet, Insert, Shorter, Sound;
    Capitals("VSET");
    TtlIsNotNegative(n, args);
    var a := ParseVSet(n, args).value;
    var batch := [BatchEntry(a.id, a.vector, a.metadata)];
    var x' :| Finishes(metric, served[a.ns], batch, fate, x') && served' == served[a.ns := x'];
    LongVectorDies(metric, served[a.ns], batch, fate, x');
    Represented(served, w.indexes, a.ns);
  }

  // ---------- two runs ----------

  /** The digits 0 and 1 are read as floats. */
  ghost predicate ReadsDigits(n: Numerals) {
    n.read32("0") == Some(0.0) && n.read32("1") == Some(1.0)
  }

  const CREATE := Command("VINDEX", ["CREATE", "n"])
  const SET_B := Command("VSET", ["n", "b", "2", "1", "0"])
  const DEL_B := Command("VDEL", ["n", "b"])
  const SET_X := Command("VSET", ["n", "x", "3", "1", "0", "0"])
  const SET_XY := Command("VMSET", ["n", "3", "2", "x", "1", "0", "0", "y", "0", "1", "0"])

  lemma {:induction false} NoWord(args: seq<string>, word: string, i: nat)
    requires i <= |args| && |word| >= 2 && forall j :: i <= j < |args| ==> |args[j]| == 1
    ensures FirstWord(args, word, i) == |args|
    decreases |args| - i
  {
    if i < |args| {
      NoWord(args, word, i + 1);
    }
  }

  lemma DigitIsRead(s: string)
    requires |s| == 1 && IsDigit(s[0])
    ensures Atoi(s) == Some(ValueOf(s[0]))
  {
    assert NatValue(s, 0, 1) == Some(ValueOf(s[0]));
  }

  lemma OneFloat(n: Numerals, args: seq<string>, pos: nat)
    requires pos < |args| && n.read32(args[pos]).Some?
    ensures ReadFloats(n, args, pos, 1) == [n.read32(args[pos]).value]
  {
    assert ReadFloats(n, args, pos, 0) == [];
  }

  lemma TwoFloats(n: Numerals, args: seq<string>, pos: nat)
    requires pos + 2 <= |args| && n.read32(args[pos]).Some? && n.read32(args[pos + 1]).Some?
    ensures ReadFloats(n, args, pos, 2) == [n.read32(args[pos]).value, n.read32(args[pos + 1]).value]
  {
    OneFloat(n, args, pos);
  }

  lemma ThreeFloats(n: Numerals, args: seq<string>, pos: nat)
    requires pos + 3 <= |args| && forall i :: pos <= i < pos + 3 ==> n.read32(args[i]).Some?
    ensures ReadFloats(n, args, pos, 3)
         == [n.read32(args[pos]).value, n.read32(args[pos + 1]).value, n.read32(args[pos + 2]).value]
  {
    TwoFloats(n, args, pos);
  }

  lemma ReadsB(n: Numerals)
    requires ReadsDigits(n)
    ensures ParseVSet(n, SET_B.args) == Some(VSetArgs("n", "b", [1.0, 0.0], map[], 0))
  {
    hide FirstWord, ReadFloats, Atoi;
    var args := SET_B.args;
    NoWord(args, "META", 3);
    NoWord(args, "EX", 3);
    DigitIsRead("2");
    TwoFloats(n, args, 3);
    assert MapOf(ServerSpec.PairsOf([])) == map[];
  }

  lemma ReadsX(n: Numerals)
    requires ReadsDigits(n)
    ensures ParseVSet(n, SET_X.args) == Some(VSetArgs("n", "x", [1.0, 0.0, 0.0], map[], 0))
  {
    hide FirstWord, ReadFloats, Atoi;
    var args := SET_X.args;
    NoWord(args, "META", 3);
    NoWord(args, "EX", 3);
    DigitIsRead("3");
    ThreeFloats(n, args, 3);
    assert MapOf(ServerSpec.PairsOf([])) == map[];
  }

  lemma ReadsXY(n: Numerals)
    requires ReadsDigits(n)
    ensures Decode(n, SET_XY.args)
         == Entries([Entry("x", [1.0, 0.0, 0.0], None), Entry("y", [0.0, 1.0, 0.0], None)])
  {
    hide ReadFloats, Atoi, ReadPairs, ToUpper;
    var args := SET_XY.args;
    DigitIsRead("3");
    DigitIsRead("2");
    ThreeFloats(n, args, 4);
    ThreeFloats(n, args, 8);
    assert |ToUpper(args[7])| == 1;
    var x, y := Entry("x", [1.0, 0.0, 0.0], None), Entry("y", [0.0, 1.0, 0.0], None);
    assert ReadEntry(n, args, 3, true, 3) == Got(x, 7);
    assert ReadEntry(n, args, 3, false, 7) == Got(y, 11);
    assert ReadAll(n, args, 3, 2, 11, [x, y]) == Entries([x, y]);
    assert [] + [x] == [x] && [x] + [y] == [x, y];
  }

  const FIRST_INDEX := NewIndex(Params(16, 200, 100))

  /** The first command of both runs. */
  lemma CreatesEmpty(metric: G.Metric, n: Numerals, now: Time, fate: Fate, served': Indexes)
    requires Serves(metric, n, EMPTY_WORLD, now, true, CREATE, fate, map[], served')
    ensures served' == map["n" := FIRST_INDEX] && fate.Answers?
    ensures Execute(n, EMPTY_WORLD, now, true, CREATE, fate).0
         == World(map[], map[], map["n" := IndexState(16, 200, 100, map[])])
  {
    hide Finishes, NewIndex;
    Capitals("VINDEX");
    Capitals("CREATE");
    assert CreateParams(CREATE.args, 2, Params(16, 200, 100)) == Some(Params(16, 200, 100));
    assert Loaded(map[], now, "n") == map[];
    var batch, x' :|
      && Lists(batch, Loaded(map[], now, "n")) && Finishes(metric, FIRST_INDEX, batch, fate, x')
      && served' == map["n" := x'];
    ListsNothing(batch, Loaded(map[], now, "n"));
    NothingInserted(metric, FIRST_INDEX, fate, x');
  }

  lemma ListsNothing(batch: seq<BatchEntry>, all: map<string, Indexed>)
    requires Lists(batch, all)
    ensures all == map[] ==> batch == []
  {
    assert batch != [] ==> batch[0].id in all;
  }

  lemma NothingInserted(metric: G.Metric, x: Served, fate: Fate, x': Served)
    requires Finishes(metric, x, [], fate, x')
    ensures fate.Answers? && x' == x
  {
  }

  /** The index after the first vector: one node, the entry point. */
  ghost predicate OneNode(x: Served, id: string, vector: seq<real>) {
    && !x.closed && x.held == NO_LOCKS
    && |x.state.graph| == 1 && x.state.entryPoint == 0 && x.state.graph[0].vector == vector
    && x.state.idMap == map[id := 0] && x.state.reverseMap == [id]
  }

  lemma FirstIsInserted(metric: G.Metric, e: BatchEntry, fate: Fate, x': Served)
    requires Finishes(metric, FIRST_INDEX, [e], fate, x')
    ensures fate.Answers? && OneNode(x', e.id, e.vector)
  {
    hide Loads;
    if fate.Answers? {
      var calls :| Loads(metric, FIRST_INDEX, [e], 1, calls) && x' == Latest(FIRST_INDEX, calls);
      OneLoad(metric, FIRST_INDEX, [e], calls);
    } else {
      var calls, call :| Loads(metric, FIRST_INDEX, [e], 0, calls)
                         && Serving.Inserts(metric, Latest(FIRST_INDEX, calls), e, call, false);
      NoLoad(metric, FIRST_INDEX, [e], calls);
    }
  }

  lemma NoLoad(metric: G.Metric, x: Served, batch: seq<BatchEntry>, calls: G.Trail<Call>)
    requires Loads(metric, x, batch, 0, calls)
    ensures Latest(x, calls) == x
  {
  }

  lemma OneLoad(metric: G.Metric, x: Served, batch: seq<BatchEntry>, calls: G.Trail<Call>)
    requires |batch| >= 1 && Loads(metric, x, batch, 1, calls)
    ensures Serving.Inserts(metric, x, batch[0], calls.last, true) && Latest(x, calls) == calls.last.after
  {
    NoLoad(metric, x, batch, calls.before);
  }

  /** The second command: "b" is stored and is the only node of the index. */
  lemma SetsB(metric: G.Metric, n: Numerals, w: World, now: Time, fate: Fate, served': Indexes)
    requires ReadsDigits(n) && w == World(map[], map[], map["n" := IndexState(16, 200, 100, map[])])
    requires Serves(metric, n, w, now, true, SET_B, fate, map["n" := FIRST_INDEX], served')
    ensures fate.Answers? && served'.Keys == {"n"} && OneNode(served'["n"], "b", [1.0, 0.0])
    ensures Execute(n, w, now, true, SET_B, fate).0.vectors
         == map["n" := Namespace(map["b" := VecEntry([1.0, 0.0], map[], false, 0)], false, 0)]
  {
    hide Finishes, ParseVSet, OneNode, NewIndex, Insert;
    Capitals("VSET");
    ReadsB(n);
    var e := BatchEntry("b", [1.0, 0.0], map[]);
    var x' :| Finishes(metric, FIRST_INDEX, [e], fate, x') && served' == map["n" := FIRST_INDEX]["n" := x'];
    FirstIsInserted(metric, e, fate, x');
  }

  /** VINDEX CREATE n, VSET n b 2 1 0, VMSET n 3 2 x 1 0 0 y 0 1 0: however the run goes, the last
      command gets no reply; y is in the store and not in the index. */
  lemma MixedDimensionsPart(metric: G.Metric, n: Numerals, now: Time, f1: Fate, f2: Fate, f3: Fate,
                            run: G.Trail<Indexes>)
    requires ReadsDigits(n)
    requires var events := [Request(now, true, CREATE, f1), Request(now, true, SET_B, f2),
                            Request(now, true, SET_XY, f3)];
      ServedRuns(metric, n, events, run)
    ensures var w := After(n, [Request(now, true, CREATE, f1), Request(now, true, SET_B, f2),
                               Request(now, true, SET_XY, f3)]);
      && Shown(w.vectors, now, "n", "y").Some? && "n" in w.indexes && Held(w.indexes, "n", "y") == None
      && !Agrees(w.vectors, w.indexes, now, false)
  {
    hide Serves, Execute, Decode, ParseVSet, Represents, NewIndex;
    var a, b, c := Request(now, true, CREATE, f1), Request(now, true, SET_B, f2), Request(now, true, SET_XY, f3);
    assert [a, b] + [c] == [a, b, c] && [a] + [b] == [a, b] && [] + [a] == [a];
    Unfold(metric, n, [a, b], c, run);
    Unfold(metric, n, [a], b, run.before);
    Unfold(metric, n, [], a, run.before.before);
    var w1, w2 := After(n, [a]), After(n, [a, b]);
    CreatesEmpty(metric, n, now, f1, run.before.before.last);
    SetsB(metric, n, w1, now, f2, run.before.last);
    RunsRefine(metric, n, [a, b], run.before);
    ReadsXY(n);
    LastOfXY(n);
    assert DefaultsAhead(w2.vectors);
    assert Shorter(run.before.last["n"], BatchEntry("x", [1.0, 0.0, 0.0], map[]));
    LongBatchParts(metric, n, w2, now, SET_XY.args, f3, run.before.last, run.last, 1);
    var w := After(n, [a, b, c]);
    assert Held(w.indexes, "n", "y") != Shown(w.vectors, now, "n", "y");
  }

  lemma LastOfXY(n: Numerals)
    requires ReadsDigits(n)
    ensures Decode(n, SET_XY.args).Entries?
    ensures var batch := BatchOf(Decode(n, SET_XY.args).entries);
      && |batch| == 2 && batch[0] == BatchEntry("x", [1.0, 0.0, 0.0], map[])
      && batch[1] == BatchEntry("y", [0.0, 1.0, 0.0], map[]) && LastOf(batch, "y", 2) == 1
  {
    hide Decode;
    ReadsXY(n);
  }

  /** The last event of a run, and the run before it. */
  lemma Unfold(metric: G.Metric, n: Numerals, front: seq<Event>, e: Event, run: G.Trail<Indexes>)
    requires ServedRuns(metric, n, front + [e], run) && e.Request?
    ensures run.Then? && ServedRuns(metric, n, front, run.before)
    ensures Serves(metric, n, After(n, front), e.now, e.allowed, e.cmd, e.fate, Current(run.before), run.last)
    ensures After(n, front + [e]) == Execute(n, After(n, front), e.now, e.allowed, e.cmd, e.fate).0
  {
    hide Serves, Execute;
    assert (front + [e])[..|front|] == front;
  }

  /** The third command of the second run: "b" is gone from the store, but its node stays the entry
      point of the index, and keeps its vector. */
  lemma DeletesB(metric: G.Metric, n: Numerals, w: World, now: Time, fate: Fate, served: Indexes, served': Indexes)
    requires w.vectors == map["n" := Namespace(map["b" := VecEntry([1.0, 0.0], map[], false, 0)], false, 0)]
    requires served.Keys == {"n"} && OneNode(served["n"], "b", [1.0, 0.0])
    requires Serves(metric, n, w, now, true, DEL_B, fate, served, served')
    ensures served'.Keys == {"n"} && Shorter(served'["n"], BatchEntry("x", [1.0, 0.0, 0.0], map[]))
    ensures Execute(n, w, now, true, DEL_B, fate).0.vectors == map["n" := Namespace(map[], false, 0)]
  {
    hide Remove;
    Capitals("VDEL");
    var s := served["n"].state;
    var g := s.graph[0 := s.graph[0].(deleted := true)];
    assert H.Elected(g, ["b"], 0) == H.Elected(g, ["b"], 1) == 0;
    assert map["b" := VecEntry([1.0, 0.0], map[], false, 0)] - {"b"} == map[];
  }

  /** VINDEX CREATE n, VSET n b 2 1 0, VDEL n b, VSET n x 3 1 0 0: the namespace is empty when x
      comes, yet its handler dies on the vector of the deleted b; x is stored, and a server
      rebuilt from the log, at any time, does not have it. */
  lemma DeletedVectorStillKills(metric: G.Metric, n: Numerals, now: Time, f1: Fate, f2: Fate, f3: Fate, f4: Fate,
                                run: G.Trail<Indexes>)
    requires ReadsDigits(n)
    requires ServedRuns(metric, n, [Request(now, true, CREATE, f1), Request(now, true, SET_B, f2),
                                    Request(now, true, DEL_B, f3), Request(now, true, SET_X, f4)], run)
    ensures var front := [Request(now, true, CREATE, f1), Request(now, true, SET_B, f2), Request(now, true, DEL_B, f3)];
      var last := Request(now, true, SET_X, f4);
      && VSnapshot(After(n, front).vectors, now, "n") == map[]
      && Replay.Silent(n, After(n, front), last) && Replay.Written(n, After(n, front), last) == []
      && Shown(After(n, front + [last]).vectors, now, "n", "x") == Some(Indexed([1.0, 0.0, 0.0], map[]))
  {
    hide Serves, Execute, ParseVSet, Represents, NewIndex, OneNode, Shorter;
    var a, b, c, d := Request(now, true, CREATE, f1), Request(now, true, SET_B, f2), Request(now, true, DEL_B, f3),
                      Request(now, true, SET_X, f4);
    assert [a, b, c] + [d] == [a, b, c, d] && [a, b] + [c] == [a, b, c] && [a] + [b] == [a, b] && [] + [a] == [a];
    Unfold(metric, n, [a, b, c], d, run);
    Unfold(metric, n, [a, b], c, run.before);
    Unfold(metric, n, [a], b, run.before.before);
    Unfold(metric, n, [], a, run.before.before.before);
    CreatesEmpty(metric, n, now, f1, run.before.before.before.last);
    SetsB(metric, n, After(n, [a]), now, f2, run.before.before.last);
    DeletesB(metric, n, After(n, [a, b]), now, f3, run.before.before.last, run.before.last);
    RunsRefine(metric, n, [a, b, c], run.before);
    ReadsX(n);
    var w := After(n, [a, b, c]);
    assert DefaultsAhead(w.vectors);
    LongVectorIsLost(metric, n, w, now, SET_X.args, f4, run.before.last, run.last);
  }

  // ---------- an index of one link ----------

  const CREATE_ONE := Command("VINDEX", ["CREATE", "n", "M", "1"])
  const SET_A := Command("VSET", ["n", "a", "1", "1"])

  lemma ReadsOne(n: Numerals, id: string)
    requires ReadsDigits(n) && |id| == 1
    ensures ParseVSet(n, ["n", id, "1", "1"]) == Some(VSetArgs("n", id, [1.0], map[], 0))
  {
    hide FirstWord, ReadFloats, Atoi;
    var args := ["n", id, "1", "1"];
    NoWord(args, "META", 3);
    NoWord(args, "EX", 3);
    DigitIsRead("1");
    OneFloat(n, args, 3);
    assert MapOf(ServerSpec.PairsOf([])) == map[];
  }

  lemma ReadsOneLink()
    ensures CreateParams(CREATE_ONE.args, 2, Params(16, 200, 100)) == Some(Params(1, 200, 100))
  {
    hide Atoi;
    DigitIsRead("1");
    Capitals("M");
    assert CreateParams(CREATE_ONE.args, 4, Params(1, 200, 100)) == Some(Params(1, 200, 100));
  }

  const ONE_LINK := NewIndex(Params(1, 200, 100))

  /** VINDEX CREATE n M 1, VSET n a 1 1, with the level that a conversion of infinity to the least
      integer gives: the vector is stored, its handler dies, and the index stays empty and locked. */
  lemma OneLinkDies(metric: G.Metric, n: Numerals, now: Time) returns (run: G.Trail<Indexes>)
    requires ReadsDigits(n)
    ensures var front, last := [Request(now, true, CREATE_ONE, Answers)], Request(now, true, SET_A, Dies(0, false, {}));
      var w := After(n, front + [last]);
      && ServedRuns(metric, n, front + [last], run)
      && Replay.Silent(n, After(n, front), last) && Replay.Written(n, After(n, front), last) == []
      && Shown(w.vectors, now, "n", "a").Some? && Held(w.indexes, "n", "a") == None
      && "n" in run.last && run.last["n"].closed
  {
    hide Serves, Execute, NewIndex;
    var a, b := Request(now, true, CREATE_ONE, Answers), Request(now, true, SET_A, Dies(0, false, {}));
    var served := map["n" := ONE_LINK];
    CreatesOneLink(metric, n, now);
    var none: G.Trail<Indexes> := G.Start;
    assert ServedRuns(metric, n, [], none) && [] + [a] == [a];
    RunMore(metric, n, [], a, none, served);
    AfterMore(n, [], a);
    SetsNothing(metric, n, After(n, [a]), now);
    var served' := map["n" := ONE_LINK.(closed := true)];
    RunMore(metric, n, [a], b, G.Then(none, served), served');
    AfterMore(n, [a], b);
    run := G.Then(G.Then(none, served), served');
  }

  lemma CreatesOneLink(metric: G.Metric, n: Numerals, now: Time)
    ensures Serves(metric, n, EMPTY_WORLD, now, true, CREATE_ONE, Answers, map[], map["n" := ONE_LINK])
    ensures Execute(n, EMPTY_WORLD, now, true, CREATE_ONE, Answers).0
         == World(map[], map[], map["n" := IndexState(1, 200, 100, map[])])
  {
    hide NewIndex;
    Capitals("VINDEX");
    Capitals("CREATE");
    ReadsOneLink();
    var batch: seq<BatchEntry> := [];
    assert Loaded(map[], now, "n") == map[];
    assert Lists(batch, Loaded(map[], now, "n"));
    var none: G.Trail<Call> := G.Start;
    assert Loads(metric, ONE_LINK, batch, 0, none) && Latest(ONE_LINK, none) == ONE_LINK;
    assert Finishes(metric, ONE_LINK, batch, Answers, ONE_LINK);
  }

  lemma SetsNothing(metric: G.Metric, n: Numerals, w: World, now: Time)
    requires ReadsDigits(n) && w == World(map[], map[], map["n" := IndexState(1, 200, 100, map[])])
    ensures var fate := Dies(0, false, {});
      && Serves(metric, n, w, now, true, SET_A, fate, map["n" := ONE_LINK], map["n" := ONE_LINK.(closed := true)])
      && var r := Execute(n, w, now, true, SET_A, fate);
         r.1.Silence? && r.0.indexes == w.indexes && Shown(r.0.vectors, now, "n", "a").Some?
  {
    hide ParseVSet;
    Capitals("VSET");
    ReadsOne(n, "a");
    var e := BatchEntry("a", [1.0], map[]);
    var none: G.Trail<Call> := G.Start;
    var x, x' := ONE_LINK, ONE_LINK.(closed := true);
    assert Loads(metric, x, [e], 0, none) && Latest(x, none) == x;
    assert Serving.Inserts(metric, x, e, Call(-1, x'), false);
    assert Finishes(metric, x, [e], Dies(0, false, {}), x');
  }

  // ---------- a log that kills its replay ----------

  const SET_B1 := Command("VSET", ["n", "b", "1", "1"])
  const DEL_A := Command("VDEL", ["n", "a"])
  const SET_C := Command("VSET", ["n", "c", "1", "1"])

  const RISKY_LOG := [CREATE, SET_A, SET_B1, DEL_A, SET_C]

  lemma ReadsRisky(n: Numerals)
    requires ReadsDigits(n)
    ensures AllFine(n, _ => 1, RISKY_LOG)
  {
    hide ParseVSet, Decode, FirstWord, Atoi;
    var dims := (ns: string) => 1;
    ReadsOne(n, "a");
    ReadsOne(n, "b");
    ReadsOne(n, "c");
    FineOne(n, "a");
    FineOne(n, "b");
    FineOne(n, "c");
    FineCreate(n);
    FineDelete(n);
  }

  lemma FineOne(n: Numerals, id: string)
    requires ReadsDigits(n) && |id| == 1
    ensures Fine(n, _ => 1, Command("VSET", ["n", id, "1", "1"]))
  {
    hide ParseVSet, Decode, FirstWord;
    var args := ["n", id, "1", "1"];
    ReadsOne(n, id);
    Capitals("VSET");
    NoWord(args, "EX", 3);
    assert MUTATIVE[3] == "VSET" && MUTATIVE[3] in MUTATIVE;
    assert forall i :: 0 <= i < |args| ==> args[i] != "";
  }

  lemma FineCreate(n: Numerals)
    ensures Fine(n, _ => 1, CREATE)
  {
    Capitals("VINDEX");
    Capitals("CREATE");
    assert MUTATIVE[5] == "VINDEX" && MUTATIVE[5] in MUTATIVE;
    assert CreateParams(CREATE.args, 2, Params(16, 200, 100)) == Some(Params(16, 200, 100));
    assert forall i :: 0 <= i < |CREATE.args| ==> CREATE.args[i] != "";
  }

  lemma FineDelete(n: Numerals)
    ensures Fine(n, _ => 1, DEL_A)
  {
    Capitals("VDEL");
    assert MUTATIVE[4] == "VDEL" && MUTATIVE[4] in MUTATIVE;
    assert forall i :: 0 <= i < |DEL_A.args| ==> DEL_A.args[i] != "";
  }

  /** The ledger of the log: one key deleted from an index of two nodes, one more stored in it. */
  lemma RiskyIsRisky(n: Numerals)
    requires ReadsDigits(n)
    ensures Risky(n, RISKY_LOG)
  {
    hide ParseVSet, Decode, CreateParams, Risks, Tallied, Book, ToUpper;
    var l1 := Ledger(map[], map["n" := Tally(0, false)]);
    var l2 := Ledger(map["n" := {"a"}], map["n" := Tally(1, false)]);
    var l3 := Ledger(map["n" := {"a", "b"}], map["n" := Tally(2, false)]);
    var l4 := Ledger(map["n" := {"b"}], map["n" := Tally(2, true)]);
    assert "a"[0] != "b"[0];
    KeysGrow(l1, {}, "a");
    KeysGrow(l2, {"a"}, "b");
    assert {} + {"a"} == {"a"} && {"a"} + {"b"} == {"a", "b"};
    TalliesCreate(n);
    TalliesOne(n, l1, "a", l2);
    TalliesOne(n, l2, "b", l3);
    TalliesDelete(n, l3, l4);
    RisksOne(n, l4);
    assert Book(n, []) == EMPTY_LEDGER by { BookNothing(n); }
    BookNext(n, [], CREATE);
    BookNext(n, [CREATE], SET_A);
    BookNext(n, [CREATE, SET_A], SET_B1);
    BookNext(n, [CREATE, SET_A, SET_B1], DEL_A);
    BookNext(n, [CREATE, SET_A, SET_B1, DEL_A], SET_C);
    assert [] + [CREATE] == [CREATE] && [CREATE] + [SET_A] == [CREATE, SET_A];
    assert [CREATE, SET_A] + [SET_B1] == [CREATE, SET_A, SET_B1];
    assert [CREATE, SET_A, SET_B1] + [DEL_A] == [CREATE, SET_A, SET_B1, DEL_A];
    assert [CREATE, SET_A, SET_B1, DEL_A] + [SET_C] == RISKY_LOG;
  }

  lemma KeysGrow(l: Ledger, ids: set<string>, id: string)
    requires l.keys == if ids == {} then map[] else map["n" := ids]
    ensures KeysIn(l, "n") == ids && l.keys["n" := ids + {id}] == map["n" := ids + {id}]
  {
    var grown: map<string, set<string>> := l.keys["n" := ids + {id}];
    assert grown.Keys == {"n"};
  }

  lemma BookNothing(n: Numerals)
    ensures Book(n, []) == EMPTY_LEDGER
  {
  }

  lemma TalliesCreate(n: Numerals)
    ensures Tallied(n, EMPTY_LEDGER, CREATE) == Ledger(map[], map["n" := Tally(0, false)])
  {
    hide ParseVSet, Decode;
    Capitals("VINDEX");
    Capitals("CREATE");
    assert CreateParams(CREATE.args, 2, Params(16, 200, 100)) == Some(Params(16, 200, 100));
  }

  lemma TalliesOne(n: Numerals, l: Ledger, id: string, l': Ledger)
    requires ReadsDigits(n) && |id| == 1 && "n" in l.tallies && id !in KeysIn(l, "n")
    requires l' == Ledger(l.keys["n" := KeysIn(l, "n") + {id}],
                          l.tallies["n" := Tally(l.tallies["n"].nodes + 1, l.tallies["n"].loose)])
    ensures Tallied(n, l, Command("VSET", ["n", id, "1", "1"])) == l'
  {
    hide ParseVSet, Decode;
    Capitals("VSET");
    ReadsOne(n, id);
    assert {id} - KeysIn(l, "n") == {id};
  }

  lemma TalliesDelete(n: Numerals, l: Ledger, l': Ledger)
    requires l == Ledger(map["n" := {"a", "b"}], map["n" := Tally(2, false)])
    requires l' == Ledger(map["n" := {"b"}], map["n" := Tally(2, true)])
    ensures Tallied(n, l, DEL_A) == l'
  {
    hide ParseVSet, Decode;
    Capitals("VDEL");
    assert "a"[0] != "b"[0];
    assert {"a", "b"} - {"a"} == {"b"};
  }

  lemma RisksOne(n: Numerals, l: Ledger)
    requires ReadsDigits(n) && l == Ledger(map["n" := {"b"}], map["n" := Tally(2, true)])
    ensures Risks(n, l, SET_C)
  {
    hide ParseVSet, Decode;
    Capitals("VSET");
    ReadsOne(n, "c");
    assert "c"[0] != "b"[0] && "c" in {"c"} && "c" !in {"b"};
  }

  predicate IsLogged(n: Numerals, w: World, now: Time, cmd: Command) {
    Logged(n, w, now, true, cmd, Answers) == [cmd]
  }

  lemma SetIsLogged(n: Numerals, w: World, now: Time, id: string)
    requires ReadsDigits(n) && |id| == 1
    ensures IsLogged(n, w, now, Command("VSET", ["n", id, "1", "1"]))
  {
    hide ParseVSet;
    Capitals("VSET");
    ReadsOne(n, id);
    assert MUTATIVE[3] == "VSET" && MUTATIVE[3] in MUTATIVE;
  }

  lemma DeleteIsLogged(n: Numerals, w: World, now: Time)
    ensures IsLogged(n, w, now, DEL_A)
  {
    Capitals("VDEL");
    assert MUTATIVE[4] == "VDEL" && MUTATIVE[4] in MUTATIVE;
  }

  lemma CreateIsLogged(n: Numerals, w: World, now: Time)
    requires "n" !in w.indexes
    ensures IsLogged(n, w, now, CREATE)
  {
    hide Loaded;
    Capitals("VINDEX");
    Capitals("CREATE");
    assert MUTATIVE[5] == "VINDEX" && MUTATIVE[5] in MUTATIVE;
    assert CreateParams(CREATE.args, 2, Params(16, 200, 100)) == Some(Params(16, 200, 100));
  }

  lemma LogsNext(n: Numerals, cmds: seq<Command>, cmd: Command, clock: nat -> Time)
    requires Replay.Log(n, AnswerEvents(cmds, clock)) == cmds
    requires IsLogged(n, After(n, AnswerEvents(cmds, clock)), clock(|cmds|), cmd)
    ensures Replay.Log(n, AnswerEvents(cmds + [cmd], clock)) == cmds + [cmd]
  {
    hide Logged, After;
    var events, e := AnswerEvents(cmds, clock), Request(clock(|cmds|), true, cmd, Answers);
    AnswerEventsNext(cmds, cmd, clock);
    assert (events + [e])[..|events|] == events;
  }

  lemma RiskyIsLogged(n: Numerals, clock: nat -> Time)
    requires ReadsDigits(n)
    ensures Replay.Log(n, AnswerEvents(RISKY_LOG, clock)) == RISKY_LOG
  {
    hide IsLogged, Replay.Log, After;
    var l1, l2, l3 := [CREATE], [CREATE, SET_A], [CREATE, SET_A, SET_B1];
    var l4 := [CREATE, SET_A, SET_B1, DEL_A];
    NothingLogged(n, clock);
    CreateIsLogged(n, EMPTY_WORLD, clock(0));
    LogsNext(n, [], CREATE, clock);
    SetIsLogged(n, After(n, AnswerEvents(l1, clock)), clock(1), "a");
    assert [] + [CREATE] == l1 && l1 + [SET_A] == l2 && l2 + [SET_B1] == l3 && l3 + [DEL_A] == l4;
    LogsNext(n, l1, SET_A, clock);
    SetIsLogged(n, After(n, AnswerEvents(l2, clock)), clock(2), "b");
    LogsNext(n, l2, SET_B1, clock);
    DeleteIsLogged(n, After(n, AnswerEvents(l3, clock)), clock(3));
    LogsNext(n, l3, DEL_A, clock);
    SetIsLogged(n, After(n, AnswerEvents(l4, clock)), clock(4), "c");
    LogsNext(n, l4, SET_C, clock);
    assert l4 + [SET_C] == RISKY_LOG;
  }

  lemma NothingLogged(n: Numerals, clock: nat -> Time)
    ensures Replay.Log(n, AnswerEvents([], clock)) == [] && After(n, AnswerEvents([], clock)) == EMPTY_WORLD
  {
  }

  /** VINDEX CREATE n, VSET n a 1 1, VSET n b 1 1, VDEL n a, VSET n c 1 1: some draws answer all
      five in a tame run, which logs them, and some make the replay of that log die. */
  lemma AnsweredThenKills(metric: G.Metric, n: Numerals, clock: nat -> Time)
    requires ReadsDigits(n)
    ensures exists run ::
      && ServedRuns(metric, n, AnswerEvents(RISKY_LOG, clock), run)
      && Tame(n, _ => 1, AnswerEvents(RISKY_LOG, clock), run) && Answered(n, AnswerEvents(RISKY_LOG, clock))
    ensures Replay.Log(n, AnswerEvents(RISKY_LOG, clock)) == RISKY_LOG
    ensures exists events, run ::
      Replays(events, RISKY_LOG, clock) && ServedRuns(metric, n, events, run) && !Answered(n, events)
  {
    hide AllFine, Risky, Tame, ServedRuns, Answered, Replays;
    ReadsRisky(n);
    RiskyIsRisky(n);
    RiskyIsLogged(n, clock);
    var run, names := EveryLogIsTame(metric, n, _ => 1, RISKY_LOG, clock);
    TameRunsAreAnswered(metric, n, _ => 1, AnswerEvents(RISKY_LOG, clock), run);
    ReplayCanDieExactly(metric, n, _ => 1, RISKY_LOG, clock);
  }
}
