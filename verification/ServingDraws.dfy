/** On a log that takes a risk some levels make the replay die: with all levels 0 but that of one
    node, whose deletion then leaves the entry point below the highest layer. */
module ServingDraws {
  import opened Text
  import opened Decimal
  import opened CommandText
  import opened Vmset
  import opened StoreSpec
  import opened ServerSpec
  import opened Agreement
  import opened Replay
  import opened HnswServed
  import opened Serving
  import opened ServingRuns
  import opened ServingLedger
  import opened ServingReplay
  import T = HnswTotal
  import H = HnswSpec
  import G = HnswGraph
  import R = HnswRuns
  import I = HnswInvariant

  // ---------- an index in a chosen mode ----------

  /** All nodes on the ground layer; all but the node of a key, if it is there, which is the entry
      point on layer 1; or layer 1 in use, but no live node and not the entry point on it. */
  datatype Mode = Flat | Peak(z: string) | Fallen

  ghost predicate IsPeak(s: H.State, z: string) {
    && z in s.idMap && s.maxLayer == 1 && s.entryPoint == s.idMap[z] && 0 <= s.entryPoint < |s.graph|
    && s.graph[s.entryPoint].Level() == 1
    && forall i :: 0 <= i < |s.graph| && i != s.entryPoint ==> s.graph[i].Level() == 0
  }

  ghost predicate IsFallen(s: H.State) {
    && s.maxLayer == 1 && 0 <= s.entryPoint < |s.graph| && s.graph[s.entryPoint].Level() == 0
    && forall i :: 0 <= i < |s.graph| && !s.graph[i].deleted ==> s.graph[i].Level() == 0
  }

  ghost predicate In(x: Served, dim: nat, mode: Mode) {
    && Open(x, dim)
    && match mode
       case Flat => x.state.maxLayer == 0
       case Peak(z) => if z in x.state.idMap then IsPeak(x.state, z) else x.state.maxLayer == 0
       case Fallen => IsFallen(x.state)
  }

  /** The keys of the nodes in their order, and the nodes of the live keys: no level changes them. */
  datatype Names = Names(order: seq<string>, ids: map<string, G.NodeId>)

  const NO_NAMES := Names([], map[])

  function NamesOf(s: H.State): Names { Names(s.reverseMap, s.idMap) }

  function Named(a: Names, key: string): Names {
    if key in a.ids then a else Names(a.order + [key], a.ids[key := |a.order|])
  }

  function NamedAll(a: Names, batch: seq<BatchEntry>, k: nat): Names
    requires k <= |batch|
  {
    if k == 0 then a else Named(NamedAll(a, batch, k - 1), batch[k - 1].id)
  }

  lemma LevelsAreGround(s: H.State)
    requires I.WellFormed(s)
    ensures forall i :: 0 <= i < |s.graph| ==> 0 <= s.graph[i].Level() <= s.maxLayer
    ensures s.maxLayer == 0 ==> I.EntryOnTop(s)
  {
  }

  /** Where an Insert of a new key leaves the entry point. */
  lemma InsertTop(metric: G.Metric, s: H.State, key: string, vector: G.Vector, metadata: G.Metadata, level: nat,
                  log: H.InsertLog, s': H.State)
    requires I.WellFormed(s) && key !in s.idMap && !H.Faults(s, key, level)
    requires H.Inserts(metric, s, key, vector, metadata, level, log, s')
    ensures s'.entryPoint == if s.graph == [] || level > s.maxLayer then |s.graph| else s.entryPoint
    ensures s'.maxLayer == if s.graph == [] || level > s.maxLayer then level else s.maxLayer
  {
    hide H.Rounds, I.GraphOk, I.KeysOk;
  }

  lemma FlatNew(s: H.State, s': H.State, key: string, level: nat)
    requires I.WellFormed(s) && key !in s.idMap && s.maxLayer == 0 && level <= 1
    requires |s'.graph| == |s.graph| + 1 && s'.graph[|s.graph|].Level() == level
    requires forall i :: 0 <= i < |s.graph| ==> s'.graph[i].Level() == s.graph[i].Level()
    requires s'.idMap == s.idMap[key := |s.graph|]
    requires s'.entryPoint == if s.graph == [] || level > s.maxLayer then |s.graph| else s.entryPoint
    requires s'.maxLayer == if s.graph == [] || level > s.maxLayer then level else s.maxLayer
    ensures if level == 0 then s'.maxLayer == 0 else IsPeak(s', key)
  {
    LevelsAreGround(s);
  }

  lemma PeakNew(s: H.State, s': H.State, key: string, z: string)
    requires IsPeak(s, z) && key !in s.idMap
    requires |s'.graph| == |s.graph| + 1 && s'.graph[|s.graph|].Level() == 0
    requires forall i :: 0 <= i < |s.graph| ==> s'.graph[i].Level() == s.graph[i].Level()
    requires s'.idMap == s.idMap[key := |s.graph|] && s'.entryPoint == s.entryPoint && s'.maxLayer == s.maxLayer
    ensures IsPeak(s', z)
  {
  }

  lemma UpdatedMode(x: Served, x': Served, dim: nat, mode: Mode, key: string, vector: G.Vector, metadata: G.Metadata)
    requires In(x, dim, mode) && Open(x', dim) && key in x.state.idMap && 0 <= x.state.idMap[key] < |x.state.graph|
    requires x'.state == Updated(x.state, key, vector, metadata)
    ensures In(x', dim, mode) && NamesOf(x'.state) == NamesOf(x.state)
  {
    hide Open;
    var s, s' := x.state, x'.state;
    forall i | 0 <= i < |s.graph| ensures s'.graph[i].Level() == s.graph[i].Level() {}
    forall i | 0 <= i < |s.graph| ensures s'.graph[i].deleted == s.graph[i].deleted {}
  }

  /** An insertion with the level that keeps the mode. */
  lemma ModeInserts(metric: G.Metric, x: Served, dim: nat, mode: Mode, e: BatchEntry) returns (call: Call)
    requires In(x, dim, mode) && |e.vector| == dim && (mode.Fallen? ==> e.id in x.state.idMap)
    ensures Serving.Inserts(metric, x, e, call, true) && In(call.after, dim, mode)
    ensures NamesOf(call.after.state) == Named(NamesOf(x.state), e.id)
  {
    hide I.WellFormed, H.Inserts, IsPeak, IsFallen, Inserting, H.Faults;
    var s, level := x.state, if mode == Peak(e.id) then 1 else 0;
    NoFaultIn(x, dim, mode, e.id, level);
    var x' := T.CallHappens(metric, x, e.id, e.vector, e.metadata, level);
    call := Call(level, x');
    OpenInserts(metric, x, e.id, e.vector, e.metadata, level, x', true);
    if e.id in s.idMap {
      UpdatedBy(metric, x, e, level, x');
      UpdatedMode(x, x', dim, mode, e.id, e.vector, e.metadata);
    } else {
      NewMode(metric, x, dim, mode, e, level, x');
    }
  }

  lemma UpdatedBy(metric: G.Metric, x: Served, e: BatchEntry, level: nat, x': Served)
    requires Inserting(metric, x, e.id, e.vector, e.metadata, level, x', true) && e.id in x.state.idMap && !x.closed
    ensures 0 <= x.state.idMap[e.id] < |x.state.graph|
    ensures x'.state == Updated(x.state, e.id, e.vector, e.metadata)
  {
  }

  lemma NewMode(metric: G.Metric, x: Served, dim: nat, mode: Mode, e: BatchEntry, level: nat, x': Served)
    requires In(x, dim, mode) && Open(x', dim) && e.id !in x.state.idMap && !mode.Fallen?
    requires level == if mode == Peak(e.id) then 1 else 0
    requires !H.Faults(x.state, e.id, level)
    requires exists log :: H.Inserts(metric, x.state, e.id, e.vector, e.metadata, level, log, x'.state)
    ensures In(x', dim, mode) && NamesOf(x'.state) == Named(NamesOf(x.state), e.id)
  {
    hide I.WellFormed, H.Inserts, IsPeak, H.Faults;
    var s, s' := x.state, x'.state;
    var log :| H.Inserts(metric, s, e.id, e.vector, e.metadata, level, log, s');
    R.InsertLevels(metric, s, e.id, e.vector, e.metadata, level, log, s');
    InsertTop(metric, s, e.id, e.vector, e.metadata, level, log, s');
    KeysMatch(s);
    if mode.Peak? && mode.z in s.idMap {
      PeakIsHigh(s, mode.z);
      PeakNew(s, s', e.id, mode.z);
    } else {
      FlatNew(s, s', e.id, level);
    }
  }

  lemma PeakIsHigh(s: H.State, z: string)
    requires IsPeak(s, z)
    ensures s.graph != [] && s.maxLayer == 1
  {
  }

  lemma NoFaultIn(x: Served, dim: nat, mode: Mode, key: string, level: nat)
    requires In(x, dim, mode) && (mode.Fallen? ==> key in x.state.idMap)
    ensures !H.Faults(x.state, key, level)
  {
    hide I.GraphOk, I.KeysOk;
    LevelsAreGround(x.state);
  }

  lemma {:induction false} ModeLoads(metric: G.Metric, x: Served, dim: nat, mode: Mode, batch: seq<BatchEntry>, k: nat)
    returns (calls: G.Trail<Call>)
    requires In(x, dim, mode) && k <= |batch| && forall i :: 0 <= i < |batch| ==> |batch[i].vector| == dim
    requires mode.Fallen? ==> forall i :: 0 <= i < k ==> batch[i].id in x.state.idMap
    ensures Loads(metric, x, batch, k, calls) && In(Latest(x, calls), dim, mode)
    ensures NamesOf(Latest(x, calls).state) == NamedAll(NamesOf(x.state), batch, k)
    ensures mode.Fallen? ==> NamesOf(Latest(x, calls).state) == NamesOf(x.state)
  {
    hide In, Serving.Inserts;
    calls := G.Start;
    if k > 0 {
      var before := ModeLoads(metric, x, dim, mode, batch, k - 1);
      var y := Latest(x, before);
      assert NamesOf(y.state).ids == y.state.idMap && NamesOf(x.state).ids == x.state.idMap;
      var call := ModeInserts(metric, y, dim, mode, batch[k - 1]);
      calls := G.Then(before, call);
    }
  }

  /** Deleting the key, if it is there, elects another node than its own. */
  predicate Moves(a: Names, z: string) {
    z in a.ids && (a.ids[z] != 0 || exists k :: k in a.ids && k != z)
  }

  function ModeAfter(mode: Mode, a: Names, key: string): Mode {
    if mode == Peak(key) && key in a.ids then Fallen else mode
  }

  /** A deletion in the mode, or out of it. */
  lemma ModeDeletes(x: Served, dim: nat, mode: Mode, key: string) returns (x': Served)
    requires In(x, dim, mode) && "" !in x.state.idMap
    requires mode == Peak(key) && key in x.state.idMap ==> Moves(NamesOf(x.state), key)
    requires mode.Fallen? && key in x.state.idMap ==> !Moves(NamesOf(x.state), key)
    ensures Deleting(x, key, x', true) && In(x', dim, ModeAfter(mode, NamesOf(x.state), key))
    ensures NamesOf(x'.state) == Names(x.state.reverseMap, x.state.idMap - {key})
  {
    hide I.WellFormed, H.Deleted, IsPeak, IsFallen, Moves;
    var s := x.state;
    KeysMatch(s);
    DeletedNames(s, key);
    x' := x.(state := H.Deleted(s, key));
    assert Deleting(x, key, x', true) by {
      if key !in s.idMap {
        NothingDeleted(s, key);
      } else {
        WellFormedIds(s, key);
      }
    }
    OpenDeletes(x, dim, key, x', true);
    if key in s.idMap {
      match mode {
        case Flat => DeletedIsUniform(s, key, dim);
        case Peak(z) =>
          if z == key {
            PeakFalls(s, key);
          } else if z in s.idMap {
            PeakStays(s, z, key);
          } else {
            DeletedIsUniform(s, key, dim);
          }
        case Fallen => FallenStays(s, key);
      }
    } else {
      NothingDeleted(s, key);
    }
  }

  lemma WellFormedIds(s: H.State, key: string)
    requires I.WellFormed(s) && key in s.idMap
    ensures 0 <= s.idMap[key] < |s.graph|
  {
  }

  lemma DeletedNames(s: H.State, key: string)
    requires I.WellFormed(s) && |s.reverseMap| == |s.graph|
    ensures NamesOf(H.Deleted(s, key)) == Names(s.reverseMap, s.idMap - {key})
  {
    assert key !in s.idMap ==> s.idMap - {key} == s.idMap;
  }

  lemma PeakStays(s: H.State, z: string, key: string)
    requires I.WellFormed(s) && IsPeak(s, z) && key in s.idMap && key != z && |s.reverseMap| == |s.graph|
    ensures IsPeak(H.Deleted(s, key), z)
  {
    assert s.reverseMap[s.idMap[key]] == key && s.reverseMap[s.idMap[z]] == z;
    var s' := H.Deleted(s, key);
    forall i | 0 <= i < |s.graph| ensures s'.graph[i].Level() == s.graph[i].Level() {}
  }

  /** The entry point moves to a node of the ground layer, and none above it is left alive. */
  lemma PeakFalls(s: H.State, key: string)
    requires I.WellFormed(s) && IsPeak(s, key) && Moves(NamesOf(s), key) && |s.reverseMap| == |s.graph|
    requires "" !in s.idMap
    ensures IsFallen(H.Deleted(s, key))
  {
    hide I.GraphOk;
    var id, s' := s.idMap[key], H.Deleted(s, key);
    var g := s.graph[id := s.graph[id].(deleted := true)];
    var e := H.Elected(g, s.reverseMap, 0);
    R.ElectedIsFirst(g, s.reverseMap, 0);
    forall i | 0 <= i < |g| ensures g[i].Level() == s.graph[i].Level() {}
    if id == 0 {
      var k :| k in s.idMap && k != key;
      var j := s.idMap[k];
      assert s.reverseMap[j] == k && s.reverseMap[id] == key && j != id;
      assert !g[j].deleted && s.reverseMap[j] != "";
    }
    assert e != id;
  }

  lemma OnlyLive(s: H.State, key: string)
    requires I.KeysOk(s) && key in s.idMap && forall k :: k in s.idMap ==> k == key
    ensures forall i :: 0 <= i < |s.graph| && !s.graph[i].deleted ==> i == s.idMap[key]
  {
  }

  /** The only live node, node 0, goes, and the entry point stays on the ground. */
  lemma FallenStays(s: H.State, key: string)
    requires I.WellFormed(s) && IsFallen(s) && key in s.idMap && !Moves(NamesOf(s), key)
    requires |s.reverseMap| == |s.graph|
    ensures IsFallen(H.Deleted(s, key))
  {
    hide I.GraphOk;
    var s' := H.Deleted(s, key);
    assert s.idMap[key] == 0 && !s.graph[0].deleted;
    var g := s.graph[0 := s.graph[0].(deleted := true)];
    R.ElectedIsFirst(g, s.reverseMap, 0);
    forall i | 0 <= i < |g| ensures g[i].Level() == s.graph[i].Level() {}
    OnlyLive(s, key);
  }

  /** In a fallen index a batch that brings a new key dies with the first it brings, on layer 1. */
  lemma FallenDies(metric: G.Metric, x: Served, dim: nat, batch: seq<BatchEntry>, j: nat)
    returns (fate: Fate, x': Served)
    requires In(x, dim, Fallen) && j < |batch| && forall i :: 0 <= i < |batch| ==> |batch[i].vector| == dim
    requires batch[j].id !in x.state.idMap && forall i :: 0 <= i < j ==> batch[i].id in x.state.idMap
    ensures Finishes(metric, x, batch, fate, x') && fate.Dies? && fate.k < |batch|
  {
    hide In, Inserting, Loads;
    var calls := ModeLoads(metric, x, dim, Fallen, batch, j);
    var y, e := Latest(x, calls), batch[j];
    assert NamesOf(y.state).ids == y.state.idMap && NamesOf(x.state).ids == x.state.idMap;
    FallenFaults(y, dim, e.id);
    x' := T.CallHappens(metric, y, e.id, e.vector, e.metadata, 1);
    var call := Call(1, x');
    assert Serving.Inserts(metric, y, e, call, false);
    fate := Dies(j, x'.state != y.state, {});
  }

  lemma FallenFaults(x: Served, dim: nat, key: string)
    requires In(x, dim, Fallen) && key !in x.state.idMap
    ensures H.Faults(x.state, key, 1) && Open(x, dim) && Drawn(x.state.config, 1)
  {
  }

  // ---------- the indexes of the server, one of them in the mode, the others flat ----------

  ghost predicate Calm(served: Indexes, dims: Dims, ns: string, mode: Mode, names: Names) {
    && (forall m :: m in served ==> In(served[m], dims(m), if m == ns then mode else Flat))
    && (ns in served ==> NamesOf(served[ns].state) == names)
  }

  lemma CalmOne(served: Indexes, dims: Dims, ns: string, mode: Mode, names: Names, m: string, x: Served, mode': Mode,
                names': Names)
    requires Calm(served, dims, ns, mode, names) && m in served
    requires In(x, dims(m), if m == ns then mode' else Flat)
    requires if m == ns then NamesOf(x.state) == names' else mode' == mode && names' == names
    ensures Calm(served[m := x], dims, ns, mode', names')
  {
    hide In;
  }

  /** What a logged command does to the indexes. */
  datatype Effect =
    | Nothing
    | Enter(ns: string, batch: seq<BatchEntry>)
    | Take(ns: string, id: string)
    | Make(ns: string, p: Params)
    | Tune(ns: string, ef: int)
    | Drop(ns: string)

  function EffectOf(n: Numerals, l: Ledger, cmd: Command): Effect {
    var name, args := ToUpper(cmd.name), cmd.args;
    if name == "VSET" then
      match ParseVSet(n, args)
      case None => Nothing
      case Some(a) => Enter(a.ns, [BatchEntry(a.id, a.vector, a.metadata)])
    else if name == "VMSET" then
      match Decode(n, args)
      case Failed(_) => Nothing
      case Entries(entries) => Enter(args[0], BatchOf(entries))
    else if name == "VDEL" && |args| == 2 then Take(args[0], args[1])
    else if name == "VINDEX" && |args| >= 2 then IndexEffect(l, args)
    else if name == "VNS" && |args| == 2 && ToUpper(args[0]) == "DROP" then Drop(args[1])
    else Nothing
  }

  function IndexEffect(l: Ledger, args: seq<string>): Effect
    requires |args| >= 2
  {
    var sub, ns := ToUpper(args[0]), args[1];
    if sub == "CREATE" then
      var p := CreateParams(args, 2, Params(16, 200, 100));
      if ns !in l.tallies && p.Some? then Make(ns, p.value) else Nothing
    else if sub == "DROP" then Drop(ns)
    else if sub == "SET_EF" && |args| == 3 && ns in l.tallies then
      var ef := Atoi(args[2]);
      if ef.Some? && ef.value > 0 then Tune(ns, ef.value) else Nothing
    else Nothing
  }

  /** How the modes and names allow the effect, for the namespace in question. */
  ghost predicate Allows(mode: Mode, names: Names, ns: string, indexed: bool, eff: Effect) {
    && (mode.Fallen? ==>
          && indexed
          && (eff.Enter? && eff.ns == ns ==> forall i :: 0 <= i < |eff.batch| ==> eff.batch[i].id in names.ids)
          && (eff.Take? && eff.ns == ns && eff.id in names.ids ==> !Moves(names, eff.id)))
    && (eff.Take? && eff.ns == ns && mode == Peak(eff.id) && eff.id in names.ids ==> Moves(names, eff.id))
  }

  function ModeThen(mode: Mode, names: Names, ns: string, indexed: bool, eff: Effect): Mode {
    if indexed && eff.Take? && eff.ns == ns then ModeAfter(mode, names, eff.id) else mode
  }

  function NamesThen(names: Names, ns: string, indexed: bool, eff: Effect, listed: seq<BatchEntry>): Names {
    if eff.Make? && eff.ns == ns then NamedAll(NO_NAMES, listed, |listed|)
    else if indexed && eff.Enter? && eff.ns == ns then NamedAll(names, eff.batch, |eff.batch|)
    else if indexed && eff.Take? && eff.ns == ns then Names(names.order, names.ids - {eff.id})
    else names
  }

  /** The effect on the indexes, each call coming back. */
  ghost predicate Affects(metric: G.Metric, eff: Effect, listed: seq<BatchEntry>, served: Indexes, served': Indexes) {
    match eff
    case Nothing => served' == served
    case Enter(ns, batch) => InsertsBatch(metric, served, ns, batch, Answers, served')
    case Take(ns, id) =>
      if ns in served then exists x' :: Deleting(served[ns], id, x', true) && served' == served[ns := x']
      else served' == served
    case Make(ns, p) =>
      exists x' :: Finishes(metric, NewIndex(p), listed, Answers, x') && served' == served[ns := x']
    case Tune(ns, ef) =>
      && ns in served && !served[ns].closed
      && served' == served[ns := served[ns].(state := served[ns].state.(ef := ef))]
    case Drop(ns) => served' == served - {ns}
  }

  lemma NewIndexIn(p: Params, dim: nat, mode: Mode)
    requires 2 <= p.m && 2 * p.m <= MAX_CAPACITY && p.efConstruction > 0 && !mode.Fallen?
    ensures In(NewIndex(p), dim, mode) && NamesOf(NewIndex(p).state) == NO_NAMES
  {
  }

  lemma TunedIn(x: Served, dim: nat, mode: Mode, ef: int)
    requires In(x, dim, mode)
    ensures !x.closed && In(x.(state := x.state.(ef := ef)), dim, mode)
  {
  }

  ghost predicate EffectFits(eff: Effect, dims: Dims) {
    && (eff.Enter? ==> forall i :: 0 <= i < |eff.batch| ==> |eff.batch[i].vector| == dims(eff.ns))
    && (eff.Make? ==> 2 <= eff.p.m && 2 * eff.p.m <= MAX_CAPACITY && eff.p.efConstruction > 0)
  }

  /** Every effect can go through without a death, and keeps the modes as said. */
  lemma EffectHappens(metric: G.Metric, eff: Effect, listed: seq<BatchEntry>, served: Indexes, dims: Dims, ns: string,
                      mode: Mode, names: Names) returns (served': Indexes)
    requires Calm(served, dims, ns, mode, names) && EffectFits(eff, dims)
    requires Allows(mode, names, ns, ns in served, eff)
    requires eff.Take? && eff.ns in served ==> "" !in served[eff.ns].state.idMap
    requires eff.Make? ==> eff.ns !in served && forall i :: 0 <= i < |listed| ==> |listed[i].vector| == dims(eff.ns)
    requires eff.Tune? ==> eff.ns in served
    ensures Affects(metric, eff, listed, served, served')
    ensures Calm(served', dims, ns, ModeThen(mode, names, ns, ns in served, eff),
                 NamesThen(names, ns, ns in served, eff, listed))
  {
    match eff {
      case Nothing => served' := served;
      case Enter(m, batch) => served' := EnterHappens(metric, m, batch, served, dims, ns, mode, names);
      case Take(m, id) => served' := TakeHappens(m, id, served, dims, ns, mode, names);
      case Make(m, p) => served' := MakeHappens(metric, m, p, listed, served, dims, ns, mode, names);
      case Tune(m, ef) =>
        TunedIn(served[m], dims(m), if m == ns then mode else Flat, ef);
        var x' := served[m].(state := served[m].state.(ef := ef));
        CalmOne(served, dims, ns, mode, names, m, x', mode, names);
        served' := served[m := x'];
      case Drop(m) => served' := served - {m};
    }
  }

  lemma EnterHappens(metric: G.Metric, m: string, batch: seq<BatchEntry>, served: Indexes, dims: Dims, ns: string,
                     mode: Mode, names: Names) returns (served': Indexes)
    requires Calm(served, dims, ns, mode, names) && forall i :: 0 <= i < |batch| ==> |batch[i].vector| == dims(m)
    requires mode.Fallen? && m == ns ==> forall i :: 0 <= i < |batch| ==> batch[i].id in names.ids
    ensures InsertsBatch(metric, served, m, batch, Answers, served')
    ensures Calm(served', dims, ns, mode, if ns in served && m == ns then NamedAll(names, batch, |batch|) else names)
  {
    hide In, Loads;
    served' := served;
    if m in served {
      var x, mode' := served[m], if m == ns then mode else Flat;
      assert NamesOf(x.state).ids == x.state.idMap;
      var calls := ModeLoads(metric, x, dims(m), mode', batch, |batch|);
      var x' := Latest(x, calls);
      assert Finishes(metric, x, batch, Answers, x');
      CalmOne(served, dims, ns, mode, names, m, x', mode, if m == ns then NamedAll(names, batch, |batch|) else names);
      served' := served[m := x'];
    }
  }

  lemma TakeHappens(m: string, id: string, served: Indexes, dims: Dims, ns: string, mode: Mode, names: Names)
    returns (served': Indexes)
    requires Calm(served, dims, ns, mode, names) && Allows(mode, names, ns, ns in served, Take(m, id))
    requires m in served ==> "" !in served[m].state.idMap
    ensures if m in served then exists x' :: Deleting(served[m], id, x', true) && served' == served[m := x']
            else served' == served
    ensures Calm(served', dims, ns, ModeThen(mode, names, ns, ns in served, Take(m, id)),
                 NamesThen(names, ns, ns in served, Take(m, id), []))
  {
    hide In, Deleting, Moves;
    served' := served;
    if m in served {
      var x, mode' := served[m], if m == ns then mode else Flat;
      assert NamesOf(x.state) == Names(x.state.reverseMap, x.state.idMap);
      var x' := ModeDeletes(x, dims(m), mode', id);
      var named := if m == ns then Names(names.order, names.ids - {id}) else names;
      CalmOne(served, dims, ns, mode, names, m, x', if m == ns then ModeAfter(mode, names, id) else mode, named);
      served' := served[m := x'];
    }
  }

  lemma MakeHappens(metric: G.Metric, m: string, p: Params, listed: seq<BatchEntry>, served: Indexes, dims: Dims,
                    ns: string, mode: Mode, names: Names) returns (served': Indexes)
    requires Calm(served, dims, ns, mode, names) && m !in served && (mode.Fallen? ==> ns in served)
    requires 2 <= p.m && 2 * p.m <= MAX_CAPACITY && p.efConstruction > 0
    requires forall i :: 0 <= i < |listed| ==> |listed[i].vector| == dims(m)
    ensures exists x' :: Finishes(metric, NewIndex(p), listed, Answers, x') && served' == served[m := x']
    ensures Calm(served', dims, ns, mode, if m == ns then NamedAll(NO_NAMES, listed, |listed|) else names)
  {
    hide In, Loads, NewIndex;
    var mode' := if m == ns then mode else Flat;
    NewIndexIn(p, dims(m), mode');
    var calls := ModeLoads(metric, NewIndex(p), dims(m), mode', listed, |listed|);
    var x' := Latest(NewIndex(p), calls);
    assert Finishes(metric, NewIndex(p), listed, Answers, x');
    served' := served[m := x'];
  }
}
