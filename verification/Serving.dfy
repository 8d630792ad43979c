/** The server over its real indexes: what each command does to them, when its handler dies, and
    which runs answer every command. */
module Serving {
  import opened Text
  import opened Decimal
  import opened CommandText
  import opened Vmset
  import opened StoreSpec
  import opened ServerSpec
  import opened Agreement
  import opened HnswServed
  import H = HnswSpec
  import G = HnswGraph
  import R = HnswRuns

  type Indexes = map<string, Served>

  // ---------- the indexes as the command state machine sees them ----------

  function Shows(x: Served): IndexState {
    IndexState(x.state.config.m, x.state.config.efConstruction, x.state.ef, KeyMap(x.state))
  }

  /** The command state machine sees the vectors that each index holds by key. */
  ghost predicate Represents(served: Indexes, indexes: map<string, IndexState>) {
    served.Keys == indexes.Keys && forall ns :: ns in served ==> Sound(served[ns]) && Shows(served[ns]) == indexes[ns]
  }

  // ---------- what a command does to them ----------

  /** One insertion of a batch: the level drawn, and the index after it. */
  datatype Call = Call(level: int, after: Served)

  ghost function Latest(x: Served, calls: G.Trail<Call>): Served {
    if calls.Start? then x else calls.last.after
  }

  ghost predicate Inserts(metric: G.Metric, x: Served, e: BatchEntry, call: Call, done: bool) {
    Drawn(x.state.config, call.level)
    && Inserting(metric, x, e.id, e.vector, e.metadata, call.level, call.after, done)
  }

  /** The first k entries of a batch inserted, each coming back. */
  ghost predicate Loads(metric: G.Metric, x: Served, batch: seq<BatchEntry>, k: nat, calls: G.Trail<Call>)
    requires k <= |batch|
  {
    if k == 0 then calls.Start?
    else
      && calls.Then? && Loads(metric, x, batch, k - 1, calls.before)
      && Inserts(metric, Latest(x, calls.before), batch[k - 1], calls.last, true)
  }

  /** The whole batch inserted, or all up to the entry in which the handler dies. */
  ghost predicate Finishes(metric: G.Metric, x: Served, batch: seq<BatchEntry>, fate: Fate, x': Served) {
    exists calls ::
      if fate.Answers? then Loads(metric, x, batch, |batch|, calls) && x' == Latest(x, calls)
      else
        && fate.k < |batch| && Loads(metric, x, batch, fate.k, calls)
        && (exists call :: Inserts(metric, Latest(x, calls), batch[fate.k], call, false) && x' == call.after)
        && (fate.takes <==> x'.state != Latest(x, calls).state)
  }

  ghost predicate InsertsBatch(metric: G.Metric, served: Indexes, ns: string, batch: seq<BatchEntry>, fate: Fate,
                               served': Indexes) {
    if ns in served then exists x' :: Finishes(metric, served[ns], batch, fate, x') && served' == served[ns := x']
    else served' == served
  }

  /** A batch that holds each vector of a namespace once, in the order in which a Go map gives them. */
  ghost predicate Lists(batch: seq<BatchEntry>, all: map<string, Indexed>) {
    && (forall i, j :: 0 <= i < j < |batch| ==> batch[i].id != batch[j].id)
    && (forall i :: 0 <= i < |batch| ==>
          batch[i].id in all && all[batch[i].id] == Indexed(batch[i].vector, batch[i].metadata))
    && (forall id :: id in all ==> exists i :: 0 <= i < |batch| && batch[i].id == id)
  }

  /** The ids of a batch from its k-th entry on. */
  function IdsFrom(batch: seq<BatchEntry>, k: nat): set<string> {
    set i | k <= i < |batch| :: batch[i].id
  }

  function NewIndex(p: Params): Served {
    Served(H.Empty(p.m, p.efConstruction).(ef := p.efSearch), NO_LOCKS, false)
  }

  ghost predicate Creates(metric: G.Metric, w: World, now: Time, args: seq<string>, fate: Fate, served: Indexes,
                          served': Indexes)
    requires |args| >= 2
  {
    var p, ns := CreateParams(args, 2, Params(16, 200, 100)), args[1];
    if p == None || ns in served then served' == served
    else
      exists batch, x' ::
        && Lists(batch, Loaded(w.vectors, now, ns))
        && Finishes(metric, NewIndex(p.value), batch, fate, x')
        && (fate.Dies? ==> fate.left == IdsFrom(batch, Reached(fate, |batch|)))
        && served' == served[ns := x']
  }

  /** A call that only takes the index's own lock. */
  ghost predicate Looks(x: Served, fate: Fate) {
    if x.closed then fate.Dies? && fate.k == 0 else fate.Answers?
  }

  ghost predicate SetsEf(served: Indexes, args: seq<string>, fate: Fate, served': Indexes)
    requires |args| >= 2
  {
    var ns := args[1];
    if |args| != 3 || ns !in served || Atoi(args[2]) == None || Atoi(args[2]).value <= 0 then served' == served
    else
      && Looks(served[ns], fate)
      && served' == if served[ns].closed then served
                    else served[ns := served[ns].(state := served[ns].state.(ef := Atoi(args[2]).value))]
  }

  ghost predicate ServesVIndex(metric: G.Metric, w: World, now: Time, args: seq<string>, fate: Fate, served: Indexes,
                               served': Indexes) {
    if |args| < 2 then served' == served else
      var sub := ToUpper(args[0]);
      if sub == "CREATE" then Creates(metric, w, now, args, fate, served, served')
      else if sub == "DROP" then served' == served - {args[1]}
      else if sub == "INFO" then served' == served && (args[1] in served ==> Looks(served[args[1]], fate))
      else if sub == "SET_EF" then SetsEf(served, args, fate, served')
      else served' == served
  }

  ghost predicate ServesVDel(args: seq<string>, fate: Fate, served: Indexes, served': Indexes) {
    if |args| == 2 && args[0] in served then
      exists x', done ::
        && Deleting(served[args[0]], args[1], x', done) && served' == served[args[0] := x']
        && if done then fate.Answers?
           else fate.Dies? && fate.k == 0 && (fate.takes <==> x'.state != served[args[0]].state)
    else served' == served
  }

  /** A search of an index fit for the dimension of the query comes back. */
  ghost predicate ServesSearch(n: Numerals, args: seq<string>, fate: Fate, served: Indexes) {
    AsksTop(n, args) && args[0] in served && Fit(served[args[0]], Atoi(args[1]).value) ==> fate.Answers?
  }

  /** What a command may do to the indexes, and which fate that is for its handler. */
  ghost predicate Serves(metric: G.Metric, n: Numerals, w: World, now: Time, allowed: bool, cmd: Command, fate: Fate,
                         served: Indexes, served': Indexes) {
    var name, args := ToUpper(cmd.name), cmd.args;
    if !allowed then served' == served
    else if name == "VSET" then
      match ParseVSet(n, args)
      case None => served' == served
      case Some(a) => InsertsBatch(metric, served, a.ns, [BatchEntry(a.id, a.vector, a.metadata)], fate, served')
    else if name == "VMSET" then
      match Decode(n, args)
      case Failed(_) => served' == served
      case Entries(entries) => InsertsBatch(metric, served, args[0], BatchOf(entries), fate, served')
    else if name == "VDEL" then ServesVDel(args, fate, served, served')
    else if name == "VINDEX" then ServesVIndex(metric, w, now, args, fate, served, served')
    else if name == "VNS" then
      served' == if |args| == 2 && ToUpper(args[0]) == "DROP" then served - {args[1]} else served
    else if name == "VSIMILARITY" then served' == served && ServesSearch(n, args, fate, served)
    else served' == served
  }

  // ---------- the state machine of ServerSpec is what shows of it ----------

  lemma {:induction false} LoadsRefine(metric: G.Metric, x: Served, batch: seq<BatchEntry>, k: nat,
                                       calls: G.Trail<Call>, indexes: map<string, IndexState>, ns: string)
    requires k <= |batch| && Loads(metric, x, batch, k, calls)
    requires ns in indexes && Sound(x) && Shows(x) == indexes[ns]
    ensures var y, i := Latest(x, calls), InsertAll(indexes, ns, batch, k);
      Sound(y) && ns in i && Shows(y) == i[ns]
  {
    hide Inserting, Sound, KeyMap;
    if k > 0 {
      LoadsRefine(metric, x, batch, k - 1, calls.before, indexes, ns);
      InsertRefines(metric, Latest(x, calls.before), batch[k - 1], calls.last, true,
                    InsertAll(indexes, ns, batch, k - 1), ns);
    }
  }

  lemma InsertRefines(metric: G.Metric, x: Served, e: BatchEntry, call: Call, done: bool,
                      indexes: map<string, IndexState>, ns: string)
    requires Inserts(metric, x, e, call, done) && ns in indexes && Sound(x) && Shows(x) == indexes[ns]
    ensures Sound(call.after)
    ensures if !done && call.after.state == x.state then Shows(call.after) == Shows(x)
            else Shows(call.after) == Insert(indexes, ns, e.id, e.vector, e.metadata)[ns]
    ensures done ==> Shows(call.after) == Insert(indexes, ns, e.id, e.vector, e.metadata)[ns]
  {
    hide Inserting, Sound, KeyMap;
    InsertingRefines(metric, x, e.id, e.vector, e.metadata, call.level, call.after, done);
  }

  /** A batch, ended or cut off, shows as the insertions of ServerSpec. */
  lemma FinishesRefine(metric: G.Metric, x: Served, batch: seq<BatchEntry>, fate: Fate, x': Served,
                       indexes: map<string, IndexState>, ns: string)
    requires Finishes(metric, x, batch, fate, x')
    requires ns in indexes && Sound(x) && Shows(x) == indexes[ns]
    ensures var i := InsertAll(indexes, ns, batch, Reached(fate, |batch|));
      Sound(x') && ns in i && Shows(x') == i[ns]
  {
    hide Inserts, Sound, Shows, Insert;
    if fate.Answers? {
      var calls :| Loads(metric, x, batch, |batch|, calls) && x' == Latest(x, calls);
      LoadsRefine(metric, x, batch, |batch|, calls, indexes, ns);
    } else {
      var calls :|
        && Loads(metric, x, batch, fate.k, calls)
        && (exists call :: Inserts(metric, Latest(x, calls), batch[fate.k], call, false) && x' == call.after)
        && (fate.takes <==> x'.state != Latest(x, calls).state);
      LoadsRefine(metric, x, batch, fate.k, calls, indexes, ns);
      var call :| Inserts(metric, Latest(x, calls), batch[fate.k], call, false) && x' == call.after;
      InsertRefines(metric, Latest(x, calls), batch[fate.k], call, false, InsertAll(indexes, ns, batch, fate.k), ns);
      InsertHas(InsertAll(indexes, ns, batch, fate.k), ns, batch[fate.k]);
    }
  }

  lemma InsertHas(indexes: map<string, IndexState>, ns: string, e: BatchEntry)
    requires ns in indexes
    ensures ns in Insert(indexes, ns, e.id, e.vector, e.metadata)
  {
  }

  lemma BatchRefines(metric: G.Metric, served: Indexes, ns: string, batch: seq<BatchEntry>, fate: Fate,
                     served': Indexes, indexes: map<string, IndexState>)
    requires Represents(served, indexes) && InsertsBatch(metric, served, ns, batch, fate, served')
    ensures Represents(served', InsertAll(indexes, ns, batch, Reached(fate, |batch|)))
  {
    hide Finishes, Sound, Shows, InsertAll, Reached;
    var k := Reached(fate, |batch|);
    if ns in served {
      var x' :| Finishes(metric, served[ns], batch, fate, x') && served' == served[ns := x'];
      FinishesRefine(metric, served[ns], batch, fate, x', indexes, ns);
      InsertAllKeepsOthers(indexes, ns, batch, k);
    } else {
      InsertAllOutside(indexes, ns, batch, k);
    }
  }

  lemma {:induction false} InsertAllKeepsOthers(indexes: map<string, IndexState>, ns: string, batch: seq<BatchEntry>,
                                                k: nat)
    requires k <= |batch| && ns in indexes
    ensures var i := InsertAll(indexes, ns, batch, k);
      i.Keys == indexes.Keys && forall m :: m in indexes && m != ns ==> i[m] == indexes[m]
  {
    if k > 0 {
      InsertAllKeepsOthers(indexes, ns, batch, k - 1);
    }
  }

  lemma VDelRefines(args: seq<string>, fate: Fate, served: Indexes, served': Indexes, w: World)
    requires Represents(served, w.indexes) && ServesVDel(args, fate, served, served')
    ensures Represents(served', HandleVDel(w, args, fate).0.indexes)
  {
    hide Deleting, Sound, KeyMap, VDel;
    if |args| == 2 && args[0] in served {
      var ns := args[0];
      var x', done :|
        && Deleting(served[ns], args[1], x', done) && served' == served[ns := x']
        && if done then fate.Answers? else fate.Dies? && fate.k == 0 && (fate.takes <==> x'.state != served[ns].state);
      DeletingRefines(served[ns], args[1], x', done);
      assert Shows(x') == HandleVDel(w, args, fate).0.indexes[ns];
    }
  }

  // ---------- the bulk load ----------

  /** What the first k entries of a listing leave in an empty index. */
  lemma {:induction false} ListedEntries(indexes: map<string, IndexState>, ns: string, batch: seq<BatchEntry>, k: nat,
                                         all: map<string, Indexed>)
    requires k <= |batch| && Lists(batch, all) && ns in indexes && indexes[ns].entries == map[]
    ensures var i := InsertAll(indexes, ns, batch, k);
      ns in i && i[ns] == indexes[ns].(entries := all - IdsFrom(batch, k))
  {
    hide Lists;
    if k == 0 {
      NothingListed(batch, all);
    } else {
      ListedEntries(indexes, ns, batch, k - 1, all);
      OneMoreListed(batch, k, all);
    }
  }

  lemma NothingListed(batch: seq<BatchEntry>, all: map<string, Indexed>)
    requires Lists(batch, all)
    ensures all - IdsFrom(batch, 0) == map[]
  {
    forall id | id in all ensures id in IdsFrom(batch, 0) {
      var i :| 0 <= i < |batch| && batch[i].id == id;
    }
  }

  lemma OneMoreListed(batch: seq<BatchEntry>, k: nat, all: map<string, Indexed>)
    requires 0 < k <= |batch| && Lists(batch, all)
    ensures var e := batch[k - 1];
      (all - IdsFrom(batch, k - 1))[e.id := Indexed(e.vector, e.metadata)] == all - IdsFrom(batch, k)
  {
    var e := batch[k - 1];
    assert e.id !in IdsFrom(batch, k);
    assert IdsFrom(batch, k - 1) == IdsFrom(batch, k) + {e.id};
  }

  lemma PositiveParams(args: seq<string>, i: nat, p: Params)
    requires i <= |args| && p.m > 0 && p.efConstruction > 0
    ensures var q := CreateParams(args, i, p); q.Some? ==> q.value.m > 0 && q.value.efConstruction > 0
    decreases |args| - i
  {
    hide Atoi, ToUpper;
    if i + 1 < |args| && Atoi(args[i + 1]).Some? && Atoi(args[i + 1]).value > 0 {
      var q := SetParam(p, ToUpper(args[i]), Atoi(args[i + 1]).value);
      if q.Some? {
        PositiveParams(args, i + 2, q.value);
      }
    }
  }

  lemma NewIndexShows(p: Params)
    requires p.m > 0 && p.efConstruction > 0
    ensures Sound(NewIndex(p)) && Shows(NewIndex(p)) == IndexState(p.m, p.efConstruction, p.efSearch, map[])
  {
  }

  lemma CreateRefines(metric: G.Metric, w: World, now: Time, args: seq<string>, fate: Fate, served: Indexes,
                      served': Indexes)
    requires |args| >= 2 && Represents(served, w.indexes) && Creates(metric, w, now, args, fate, served, served')
    ensures Represents(served', HandleCreate(w, now, args, fate).0.indexes)
  {
    hide Finishes, Lists, Sound, KeyMap, Loaded, CreateParams, IdsFrom, InsertAll, NewIndex, Shows;
    var p, ns := CreateParams(args, 2, Params(16, 200, 100)), args[1];
    if p.Some? && ns !in served {
      var all := Loaded(w.vectors, now, ns);
      var batch, x' :|
        && Lists(batch, all) && Finishes(metric, NewIndex(p.value), batch, fate, x')
        && (fate.Dies? ==> fate.left == IdsFrom(batch, Reached(fate, |batch|)))
        && served' == served[ns := x'];
      PositiveParams(args, 2, Params(16, 200, 100));
      NewIndexShows(p.value);
      var idx := IndexState(p.value.m, p.value.efConstruction, p.value.efSearch, map[]);
      var indexes := w.indexes[ns := idx];
      FinishesRefine(metric, NewIndex(p.value), batch, fate, x', indexes, ns);
      ListedEntries(indexes, ns, batch, Reached(fate, |batch|), all);
      if fate.Answers? {
        NoneLeft(batch, all);
      }
      assert Shows(x') == idx.(entries := LoadedBy(fate, all));
    }
  }

  lemma NoneLeft(batch: seq<BatchEntry>, all: map<string, Indexed>)
    ensures all - IdsFrom(batch, |batch|) == all
  {
  }

  lemma VIndexRefines(metric: G.Metric, w: World, now: Time, args: seq<string>, fate: Fate, served: Indexes,
                      served': Indexes)
    requires Represents(served, w.indexes) && ServesVIndex(metric, w, now, args, fate, served, served')
    ensures Represents(served', HandleVIndex(w, now, args, fate).0.indexes)
  {
    hide Creates, HandleCreate, ToUpper;
    if |args| >= 2 {
      var sub, ns := ToUpper(args[0]), args[1];
      if sub == "CREATE" {
        CreateRefines(metric, w, now, args, fate, served, served');
      } else if sub == "SET_EF" {
        SetEfRefines(w, args, fate, served, served');
      } else if sub == "DROP" && ns !in served {
        assert served - {ns} == served;
      }
    }
  }

  lemma SetEfRefines(w: World, args: seq<string>, fate: Fate, served: Indexes, served': Indexes)
    requires |args| >= 2 && Represents(served, w.indexes) && SetsEf(served, args, fate, served')
    ensures Represents(served', HandleSetEf(w, args, fate).0.indexes)
  {
    hide Atoi;
  }

  /** Whatever a command does to the indexes, panic or not, it shows as Execute says. */
  lemma ServesRefines(metric: G.Metric, n: Numerals, w: World, now: Time, allowed: bool, cmd: Command, fate: Fate,
                      served: Indexes, served': Indexes)
    requires Represents(served, w.indexes) && Serves(metric, n, w, now, allowed, cmd, fate, served, served')
    ensures Represents(served', Execute(n, w, now, allowed, cmd, fate).0.indexes)
  {
    hide Represents, HandleSet, HandleGet, HandleDel, HandleExpire, HandleTTL, HandleVCount, HandleVSimilarity,
      HandleVGet, HandleVExpire, HandleVSet, HandleVMSet, HandleVDel, HandleVIndex, InsertsBatch, ServesVDel,
      ServesVIndex, ServesSearch, ToUpper, ParseVSet, Decode;
    var name, args := ToUpper(cmd.name), cmd.args;
    if !allowed {
      return;
    }
    if name == "VSET" {
      VSetRefines(metric, n, w, now, args, fate, served, served');
    } else if name == "VMSET" {
      VMSetRefines(metric, n, w, now, args, fate, served, served');
    } else if name == "VDEL" {
      VDelRefines(args, fate, served, served', w);
    } else if name == "VINDEX" {
      VIndexRefines(metric, w, now, args, fate, served, served');
    } else if name == "VNS" {
      VNSRefines(w, args, served);
    } else {
      OthersLeaveIndexes(n, w, now, allowed, cmd, fate);
    }
  }

  lemma VNSRefines(w: World, args: seq<string>, served: Indexes)
    requires Represents(served, w.indexes)
    ensures Represents(if |args| == 2 && ToUpper(args[0]) == "DROP" then served - {args[1]} else served,
                       HandleVNS(w, args).0.indexes)
  {
    hide ToUpper;
  }

  lemma OthersLeaveIndexes(n: Numerals, w: World, now: Time, allowed: bool, cmd: Command, fate: Fate)
    requires ToUpper(cmd.name) !in ["VSET", "VMSET", "VDEL", "VINDEX", "VNS"]
    ensures Execute(n, w, now, allowed, cmd, fate).0.indexes == w.indexes
  {
    hide HandleVSet, HandleVMSet, HandleVDel, HandleVIndex, HandleVNS, ToUpper, Get, Del, Expire, Ttl, VGet, VExpire,
      AsksTop, Seconds, WantsTTL;
  }

  lemma VSetRefines(metric: G.Metric, n: Numerals, w: World, now: Time, args: seq<string>, fate: Fate,
                    served: Indexes, served': Indexes)
    requires Represents(served, w.indexes)
    requires match ParseVSet(n, args)
      case None => served' == served
      case Some(a) => InsertsBatch(metric, served, a.ns, [BatchEntry(a.id, a.vector, a.metadata)], fate, served')
    ensures Represents(served', HandleVSet(n, w, now, args, fate).0.indexes)
  {
    hide ParseVSet, Represents, InsertsBatch, Insert, Put;
    if ParseVSet(n, args).Some? {
      var a := ParseVSet(n, args).value;
      var batch := [BatchEntry(a.id, a.vector, a.metadata)];
      BatchRefines(metric, served, a.ns, batch, fate, served', w.indexes);
      assert InsertAll(w.indexes, a.ns, batch, 0) == w.indexes;
      assert InsertAll(w.indexes, a.ns, batch, 1) == Insert(w.indexes, a.ns, a.id, a.vector, a.metadata);
    }
  }

  lemma VMSetRefines(metric: G.Metric, n: Numerals, w: World, now: Time, args: seq<string>, fate: Fate,
                     served: Indexes, served': Indexes)
    requires Represents(served, w.indexes)
    requires match Decode(n, args)
      case Failed(_) => served' == served
      case Entries(entries) => InsertsBatch(metric, served, args[0], BatchOf(entries), fate, served')
    ensures Represents(served', HandleVMSet(n, w, now, args, fate).0.indexes)
  {
    hide Decode, Represents, InsertsBatch, InsertAll, PutAll, Reached, NamespaceOf;
    var r := Decode(n, args);
    if r.Entries? {
      DecodedDims(n, args);
      AllPut(NamespaceOf(w.vectors, args[0]), now, Atoi(args[1]).value, BatchOf(r.entries), |r.entries|);
      BatchRefines(metric, served, args[0], BatchOf(r.entries), fate, served', w.indexes);
    }
  }
}
