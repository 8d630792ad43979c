/** Which runs of the server answer every command, and runs in which a handler dies. */
module ServingRuns {
  import opened Text
  import opened Decimal
  import opened CommandText
  import opened Vmset
  import opened StoreSpec
  import opened ServerSpec
  import opened Agreement
  import opened HnswServed
  import opened Serving
  import Replay
  import H = HnswSpec
  import G = HnswGraph
  import R = HnswRuns
  import I = HnswInvariant

  /** A dimension for every namespace. */
  type Dims = string -> nat

  // ---------- what a caller can check ----------

  /** The vectors of a command have the dimension of their namespace, and they can be allocated. */
  predicate KeepsDims(n: Numerals, dims: Dims, cmd: Command) {
    var name, args := ToUpper(cmd.name), cmd.args;
    if name == "VSET" then
      var a := ParseVSet(n, args); a.Some? ==> |a.value.vector| == dims(a.value.ns)
    else if name == "VMSET" then
      && Decode(n, args) != Failed(Panic)
      && (Decode(n, args).Entries? && Atoi(args[1]).Some? ==> Atoi(args[1]).value == dims(args[0]))
    else if name == "VSIMILARITY" then AsksTop(n, args) ==> Atoi(args[1]).value == dims(args[0])
    else true
  }

  /** An index is created with an M of at least 2, and not so large that its lists cannot be allocated. */
  predicate KeepsParams(cmd: Command) {
    var args := cmd.args;
    ToUpper(cmd.name) == "VINDEX" && |args| >= 2 && ToUpper(args[0]) == "CREATE" ==>
      var p := CreateParams(args, 2, Params(16, 200, 100));
      p.Some? ==> 2 <= p.value.m && 2 * p.value.m <= MAX_CAPACITY
  }

  /** A VDEL leaves the entry point of the index on its highest layer. */
  ghost predicate KeepsEntries(served: Indexes, cmd: Command) {
    var args := cmd.args;
    ToUpper(cmd.name) == "VDEL" && |args| == 2 && args[0] in served ==>
      var s := served[args[0]].state; |s.reverseMap| == |s.graph| && R.KeepsEntry(s, args[1])
  }

  ghost predicate AllFit(served: Indexes, dims: Dims) {
    forall ns :: ns in served ==> Fit(served[ns], dims(ns))
  }

  /** The stored vectors have the dimension of their namespace. */
  ghost predicate Sized(v: Vectors, dims: Dims) {
    forall ns {:trigger v[ns]} :: ns in v ==>
      forall id :: id in v[ns].entries ==> |v[ns].entries[id].vector| == dims(ns)
  }

  // ---------- one command ----------

  lemma {:induction false} LoadsFit(metric: G.Metric, x: Served, batch: seq<BatchEntry>, k: nat, calls: G.Trail<Call>,
                                    dim: nat)
    requires k <= |batch| && Loads(metric, x, batch, k, calls) && Fit(x, dim)
    requires forall i :: 0 <= i < |batch| ==> |batch[i].vector| == dim
    ensures Fit(Latest(x, calls), dim)
  {
    hide Fit, Inserting;
    if k > 0 {
      LoadsFit(metric, x, batch, k - 1, calls.before, dim);
      var e := batch[k - 1];
      FitInserts(metric, Latest(x, calls.before), e.id, e.vector, e.metadata, calls.last.level, calls.last.after, true);
    }
  }

  /** A batch of the right dimension is inserted to its end, into an index fit for it. */
  lemma FinishesFit(metric: G.Metric, x: Served, batch: seq<BatchEntry>, fate: Fate, x': Served, dim: nat)
    requires Finishes(metric, x, batch, fate, x') && Fit(x, dim)
    requires forall i :: 0 <= i < |batch| ==> |batch[i].vector| == dim
    ensures fate.Answers? && Fit(x', dim)
  {
    hide Fit, Inserting;
    if fate.Answers? {
      var calls :| Loads(metric, x, batch, |batch|, calls) && x' == Latest(x, calls);
      LoadsFit(metric, x, batch, |batch|, calls, dim);
    } else {
      var calls, call :| Loads(metric, x, batch, fate.k, calls)
                         && Serving.Inserts(metric, Latest(x, calls), batch[fate.k], call, false);
      LoadsFit(metric, x, batch, fate.k, calls, dim);
      var e := batch[fate.k];
      FitInserts(metric, Latest(x, calls), e.id, e.vector, e.metadata, call.level, call.after, false);
    }
  }

  lemma BatchFits(metric: G.Metric, served: Indexes, ns: string, batch: seq<BatchEntry>, fate: Fate, served': Indexes,
                  dims: Dims)
    requires AllFit(served, dims) && InsertsBatch(metric, served, ns, batch, fate, served')
    requires forall i :: 0 <= i < |batch| ==> |batch[i].vector| == dims(ns)
    ensures AllFit(served', dims) && (ns in served ==> fate.Answers?)
  {
    hide Fit, Finishes;
    if ns in served {
      var x' :| Finishes(metric, served[ns], batch, fate, x') && served' == served[ns := x'];
      FinishesFit(metric, served[ns], batch, fate, x', dims(ns));
    }
  }

  lemma NewIndexFits(p: Params, dim: nat)
    requires 2 <= p.m && 2 * p.m <= MAX_CAPACITY && p.efConstruction > 0
    ensures Fit(NewIndex(p), dim)
  {
  }

  lemma ListedAreSized(v: Vectors, now: Time, ns: string, batch: seq<BatchEntry>, dims: Dims)
    requires Sized(v, dims) && Lists(batch, Loaded(v, now, ns))
    ensures forall i :: 0 <= i < |batch| ==> |batch[i].vector| == dims(ns)
  {
    forall i | 0 <= i < |batch| ensures |batch[i].vector| == dims(ns) {
      var id := batch[i].id;
      assert id in v[ns].entries && v[ns].entries[id].vector == batch[i].vector;
    }
  }

  lemma CreateFits(metric: G.Metric, w: World, now: Time, args: seq<string>, fate: Fate, served: Indexes,
                   served': Indexes, dims: Dims)
    requires |args| >= 2 && Represents(served, w.indexes) && Creates(metric, w, now, args, fate, served, served')
    requires AllFit(served, dims) && Sized(w.vectors, dims)
    requires var p := CreateParams(args, 2, Params(16, 200, 100));
      p.Some? ==> 2 <= p.value.m && 2 * p.value.m <= MAX_CAPACITY
    ensures AllFit(served', dims) && !HandleCreate(w, now, args, fate).1.Silence?
  {
    hide Fit, Finishes, Lists, CreateParams, Loaded, NewIndex, IdsFrom, Sized;
    var p, ns := CreateParams(args, 2, Params(16, 200, 100)), args[1];
    if p.Some? && ns !in served {
      var batch, x' :|
        && Lists(batch, Loaded(w.vectors, now, ns)) && Finishes(metric, NewIndex(p.value), batch, fate, x')
        && served' == served[ns := x'];
      PositiveParams(args, 2, Params(16, 200, 100));
      NewIndexFits(p.value, dims(ns));
      ListedAreSized(w.vectors, now, ns, batch, dims);
      FinishesFit(metric, NewIndex(p.value), batch, fate, x', dims(ns));
    }
  }

  lemma VIndexFits(metric: G.Metric, w: World, now: Time, args: seq<string>, fate: Fate, served: Indexes,
                   served': Indexes, dims: Dims)
    requires Represents(served, w.indexes) && ServesVIndex(metric, w, now, args, fate, served, served')
    requires AllFit(served, dims) && Sized(w.vectors, dims) && KeepsParams(Command("VINDEX", args))
    ensures AllFit(served', dims) && !HandleVIndex(w, now, args, fate).1.Silence?
  {
    hide Creates, HandleCreate, ToUpper, Atoi, Sized, KeyMap, Sound, I.WellFormed, I.EntryOnTop, Uniform;
    if |args| >= 2 {
      var sub, ns := ToUpper(args[0]), args[1];
      if sub == "CREATE" {
        CreateFits(metric, w, now, args, fate, served, served', dims);
      } else if sub == "SET_EF" && ns in served && Atoi(args[2 % |args|]).Some? {
        EfFits(served[ns], dims(ns), Atoi(args[2 % |args|]).value);
      }
    }
  }

  lemma EfFits(x: Served, dim: nat, ef: int)
    requires Fit(x, dim)
    ensures Fit(x.(state := x.state.(ef := ef)), dim)
  {
  }

  lemma VDelFits(args: seq<string>, fate: Fate, served: Indexes, served': Indexes, w: World, dims: Dims)
    requires Represents(served, w.indexes) && ServesVDel(args, fate, served, served') && AllFit(served, dims)
    requires |args| == 2 && args[0] in served ==>
      var s := served[args[0]].state; |s.reverseMap| == |s.graph| && R.KeepsEntry(s, args[1])
    ensures AllFit(served', dims) && !HandleVDel(w, args, fate).1.Silence?
  {
    hide Fit, Deleting, R.KeepsEntry, VDel, Remove;
    if |args| == 2 && args[0] in served {
      var ns := args[0];
      var x', done :|
        && Deleting(served[ns], args[1], x', done) && served' == served[ns := x']
        && if done then fate.Answers? else fate.Dies? && fate.k == 0 && (fate.takes <==> x'.state != served[ns].state);
      FitDeletes(served[ns], dims(ns), args[1], x', done);
    }
  }

  lemma VSetFits(metric: G.Metric, n: Numerals, w: World, now: Time, args: seq<string>, fate: Fate, served: Indexes,
                 served': Indexes, dims: Dims)
    requires Represents(served, w.indexes) && AllFit(served, dims)
    requires match ParseVSet(n, args)
      case None => served' == served
      case Some(a) => InsertsBatch(metric, served, a.ns, [BatchEntry(a.id, a.vector, a.metadata)], fate, served')
    requires var a := ParseVSet(n, args); a.Some? ==> |a.value.vector| == dims(a.value.ns)
    ensures AllFit(served', dims) && !HandleVSet(n, w, now, args, fate).1.Silence?
  {
    hide ParseVSet, AllFit, InsertsBatch, Insert, Put;
    if ParseVSet(n, args).Some? {
      var a := ParseVSet(n, args).value;
      BatchFits(metric, served, a.ns, [BatchEntry(a.id, a.vector, a.metadata)], fate, served', dims);
    }
  }

  lemma VMSetFits(metric: G.Metric, n: Numerals, w: World, now: Time, args: seq<string>, fate: Fate, served: Indexes,
                  served': Indexes, dims: Dims)
    requires Represents(served, w.indexes) && AllFit(served, dims)
    requires match Decode(n, args)
      case Failed(_) => served' == served
      case Entries(entries) => InsertsBatch(metric, served, args[0], BatchOf(entries), fate, served')
    requires Decode(n, args) != Failed(Panic)
    requires Decode(n, args).Entries? && Atoi(args[1]).Some? ==> Atoi(args[1]).value == dims(args[0])
    ensures AllFit(served', dims) && !HandleVMSet(n, w, now, args, fate).1.Silence?
  {
    hide Decode, AllFit, InsertsBatch, InsertAll, PutAll;
    if Decode(n, args).Entries? {
      DecodedDims(n, args);
      BatchFits(metric, served, args[0], BatchOf(Decode(n, args).entries), fate, served', dims);
    }
  }

  lemma ExecuteKeepsSized(n: Numerals, w: World, now: Time, allowed: bool, cmd: Command, fate: Fate, dims: Dims)
    requires Sized(w.vectors, dims) && (allowed ==> KeepsDims(n, dims, cmd))
    ensures Sized(Execute(n, w, now, allowed, cmd, fate).0.vectors, dims)
  {
    hide HandleSet, HandleGet, HandleDel, HandleExpire, HandleTTL, HandleVCount, HandleVSimilarity, HandleVSet,
      HandleVMSet, HandleVIndex, HandleVGet, HandleVDel, HandleVExpire, HandleVNS, ToUpper, Sized;
    var name, args := ToUpper(cmd.name), cmd.args;
    if !allowed || !TouchesVectors(name) {
      OthersLeaveVectors(n, w, now, allowed, cmd, fate);
    } else if name == "VMSET" {
      VMSetKeepsSized(n, w, now, args, fate, dims);
    } else if name == "VSET" {
      VSetKeepsSized(n, w, now, args, fate, dims);
    } else if name == "VINDEX" {
      VIndexKeepsVectors(w, now, args, fate);
    } else {
      NoVectorAdded(w, now, args, fate, dims);
    }
  }

  lemma NoVectorAdded(w: World, now: Time, args: seq<string>, fate: Fate, dims: Dims)
    requires Sized(w.vectors, dims)
    ensures Sized(HandleVGet(w, now, args).0.vectors, dims) && Sized(HandleVDel(w, args, fate).0.vectors, dims)
    ensures Sized(HandleVExpire(w, now, args).0.vectors, dims) && Sized(HandleVNS(w, args).0.vectors, dims)
  {
    hide Seconds, ToUpper, Remove;
  }

  lemma VSetKeepsSized(n: Numerals, w: World, now: Time, args: seq<string>, fate: Fate, dims: Dims)
    requires Sized(w.vectors, dims)
    requires var a := ParseVSet(n, args); a.Some? ==> |a.value.vector| == dims(a.value.ns)
    ensures Sized(HandleVSet(n, w, now, args, fate).0.vectors, dims)
  {
    hide ParseVSet;
  }

  lemma VMSetKeepsSized(n: Numerals, w: World, now: Time, args: seq<string>, fate: Fate, dims: Dims)
    requires Sized(w.vectors, dims)
    requires Decode(n, args).Entries? && Atoi(args[1]).Some? ==> Atoi(args[1]).value == dims(args[0])
    ensures Sized(HandleVMSet(n, w, now, args, fate).0.vectors, dims)
  {
    hide Decode, PutAll, InsertAll;
    if Decode(n, args).Entries? {
      DecodedDims(n, args);
      var dim, batch, s := Atoi(args[1]).value, BatchOf(Decode(n, args).entries), NamespaceOf(w.vectors, args[0]);
      var r := PutAll(s, now, dim, batch, |batch|);
      forall id | id in r.0.entries ensures |r.0.entries[id].vector| == dim {
        BatchIsRead(s, now, dim, batch, |batch|, id);
      }
    }
  }

  /** A command whose vectors have the dimension of their namespace, whose index parameters are
      sound, and that leaves the entry points on top, is answered, whatever levels are drawn; everything stays fit. */
  lemma TameIsAnswered(metric: G.Metric, n: Numerals, w: World, now: Time, allowed: bool, cmd: Command, fate: Fate,
                       served: Indexes, served': Indexes, dims: Dims)
    requires Represents(served, w.indexes) && AllFit(served, dims) && Sized(w.vectors, dims)
    requires allowed ==> KeepsDims(n, dims, cmd) && KeepsParams(cmd) && KeepsEntries(served, cmd)
    requires Serves(metric, n, w, now, allowed, cmd, fate, served, served')
    ensures !Execute(n, w, now, allowed, cmd, fate).1.Silence?
    ensures AllFit(served', dims)
  {
    hide Represents, AllFit, Sized, HandleVSet, HandleVMSet, HandleVDel, HandleVIndex, InsertsBatch, ServesVDel,
      ServesVIndex, ToUpper, ParseVSet, Decode, R.KeepsEntry, HandleVSimilarity;
    var name, args := ToUpper(cmd.name), cmd.args;
    if !allowed {
      return;
    }
    if name == "VSET" {
      VSetFits(metric, n, w, now, args, fate, served, served', dims);
    } else if name == "VMSET" {
      VMSetFits(metric, n, w, now, args, fate, served, served', dims);
    } else if name == "VDEL" {
      VDelFits(args, fate, served, served', w, dims);
    } else if name == "VINDEX" {
      VIndexFits(metric, w, now, args, fate, served, served', dims);
    } else if name == "VSIMILARITY" {
      SearchFits(n, w, args, fate, served, dims);
    } else {
      if Execute(n, w, now, allowed, cmd, fate).1.Silence? {
        Replay.OnlyIndexed(n, w, now, allowed, cmd, fate);
      }
      DropFits(served, args, dims);
    }
  }

  lemma SearchFits(n: Numerals, w: World, args: seq<string>, fate: Fate, served: Indexes, dims: Dims)
    requires Represents(served, w.indexes) && AllFit(served, dims) && ServesSearch(n, args, fate, served)
    requires AsksTop(n, args) ==> Atoi(args[1]).value == dims(args[0])
    ensures !HandleVSimilarity(n, w, args, fate).1.Silence?
  {
    hide Fit, AsksTop;
  }

  lemma DropFits(served: Indexes, args: seq<string>, dims: Dims)
    requires AllFit(served, dims)
    ensures |args| == 2 ==> AllFit(served - {args[1]}, dims)
  {
  }

  // ---------- runs ----------

  function Current(run: G.Trail<Indexes>): Indexes {
    if run.Start? then map[] else run.last
  }

  /** The indexes after each event of a run. */
  ghost predicate ServedRuns(metric: G.Metric, n: Numerals, events: seq<Event>, run: G.Trail<Indexes>) {
    if events == [] then run.Start?
    else
      var front, e := events[..|events| - 1], events[|events| - 1];
      && run.Then? && ServedRuns(metric, n, front, run.before)
      && match e
         case Tick(_) => run.last == Current(run.before)
         case Request(now, allowed, cmd, fate) =>
           Serves(metric, n, After(n, front), now, allowed, cmd, fate, Current(run.before), run.last)
  }

  /** Every command of the run has vectors of the dimension of their namespace, creates indexes with
      sound parameters, and leaves the entry points on top. */
  ghost predicate Tame(n: Numerals, dims: Dims, events: seq<Event>, run: G.Trail<Indexes>) {
    events != [] ==>
      var front, e := events[..|events| - 1], events[|events| - 1];
      && run.Then? && Tame(n, dims, front, run.before)
      && (e.Request? && e.allowed ==>
            KeepsDims(n, dims, e.cmd) && KeepsParams(e.cmd) && KeepsEntries(Current(run.before), e.cmd))
  }

  /** In every run, panics or not, the command state machine shows what the real indexes hold. */
  lemma {:induction false} RunsRefine(metric: G.Metric, n: Numerals, events: seq<Event>, run: G.Trail<Indexes>)
    requires ServedRuns(metric, n, events, run)
    ensures Represents(Current(run), After(n, events).indexes)
  {
    hide Serves, Represents, Execute, SweptVectors;
    if events == [] {
      NothingServed();
    } else {
      var front, e := events[..|events| - 1], events[|events| - 1];
      RunsRefine(metric, n, front, run.before);
      if e.Request? {
        ServesRefines(metric, n, After(n, front), e.now, e.allowed, e.cmd, e.fate, Current(run.before), run.last);
      }
    }
  }

  lemma NothingServed()
    ensures Represents(map[], EMPTY_WORLD.indexes)
  {
  }

  lemma NothingSized(dims: Dims)
    ensures AllFit(map[], dims) && Sized(EMPTY_WORLD.vectors, dims)
  {
  }

  lemma SweptIsSized(w: World, now: Time, dims: Dims)
    requires Sized(w.vectors, dims)
    ensures Sized(Swept(w, now).vectors, dims)
  {
  }

  /** Every command of a tame run is answered, whatever levels are drawn and in whatever order the
      bulk loads go. */
  lemma {:induction false} TameRunsAreAnswered(metric: G.Metric, n: Numerals, dims: Dims, events: seq<Event>,
                                               run: G.Trail<Indexes>)
    requires ServedRuns(metric, n, events, run) && Tame(n, dims, events, run)
    ensures Answered(n, events) && AllFit(Current(run), dims) && Sized(After(n, events).vectors, dims)
  {
    hide Serves, Represents, Execute, AllFit, Sized, KeepsDims, KeepsParams, KeepsEntries, Swept;
    if events == [] {
      NothingSized(dims);
    } else {
      var front, e := events[..|events| - 1], events[|events| - 1];
      var w := After(n, front);
      TameRunsAreAnswered(metric, n, dims, front, run.before);
      RunsRefine(metric, n, front, run.before);
      match e {
        case Tick(now) => SweptIsSized(w, now, dims);
        case Request(now, allowed, cmd, fate) =>
          TameIsAnswered(metric, n, w, now, allowed, cmd, fate, Current(run.before), run.last, dims);
          ExecuteKeepsSized(n, w, now, allowed, cmd, fate, dims);
      }
    }
  }

  /** So in every tame run each unexpired vector of an indexed namespace is in the real index. */
  lemma TameRunsAgree(metric: G.Metric, n: Numerals, dims: Dims, events: seq<Event>, run: G.Trail<Indexes>, now: Time,
                      ns: string, id: string)
    requires ServedRuns(metric, n, events, run) && Tame(n, dims, events, run)
    requires Timely(events) && (events != [] ==> Clock(events) <= now)
    ensures var shown := Shown(After(n, events).vectors, now, ns, id);
      ns in Current(run) && shown.Some? ==>
        id in KeyMap(Current(run)[ns].state) && KeyMap(Current(run)[ns].state)[id] == shown.value
  {
    hide Sound, KeyMap;
    TameRunsAreAnswered(metric, n, dims, events, run);
    RunsRefine(metric, n, events, run);
    RunsAgree(n, events, now, ns, id);
    if ns in Current(run) {
      assert Shows(Current(run)[ns]) == After(n, events).indexes[ns];
    }
  }
}
