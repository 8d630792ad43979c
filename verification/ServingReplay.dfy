/** Replays of a log over real indexes, with levels and bulk-load orders of their own: on which logs
    none can die. */
module ServingReplay {
  import opened Text
  import opened Decimal
  import opened CommandText
  import opened Vmset
  import opened StoreSpec
  import opened ServerSpec
  import opened Agreement
  import opened Replay
  import opened HnswServed
  import opened Serving
  import opened ServingRuns
  import opened ServingLedger
  import H = HnswSpec
  import G = HnswGraph
  import R = HnswRuns
  import I = HnswInvariant

  /** The requests of a replay, as far as it comes. */
  ghost predicate Replays(events: seq<Event>, cmds: seq<Command>, clock: nat -> Time) {
    && |events| <= |cmds|
    && forall k :: 0 <= k < |events| ==>
         events[k].Request? && events[k] == Request(clock(k), true, cmds[k], events[k].fate)
  }

  lemma ReplaysFront(events: seq<Event>, cmds: seq<Command>, clock: nat -> Time)
    requires Replays(events, cmds, clock) && events != []
    ensures Replays(events[..|events| - 1], cmds, clock)
    ensures events[|events| - 1] == Request(clock(|events| - 1), true, cmds[|events| - 1], events[|events| - 1].fate)
  {
    var front := events[..|events| - 1];
    assert forall k :: 0 <= k < |front| ==> front[k] == events[k];
  }

  // ---------- what an insertion and a deletion leave of an open index ----------

  /** The nodes and keys of an index, counted. */
  ghost predicate Counts(x: Served, nodes: nat, keys: set<string>) {
    |x.state.graph| == nodes && KeyMap(x.state).Keys == keys
  }

  lemma KeyMapKeys(s: H.State)
    requires I.WellFormed(s)
    ensures KeyMap(s).Keys == s.idMap.Keys
  {
  }

  /** One insertion: of a key that is there, or into an index with its entry point on top. */
  lemma OpenInsertCounts(metric: G.Metric, x: Served, e: BatchEntry, call: Call, done: bool, dim: nat, nodes: nat,
                         keys: set<string>)
    requires Open(x, dim) && |e.vector| == dim && Counts(x, nodes, keys)
    requires e.id in keys || I.EntryOnTop(x.state)
    requires Serving.Inserts(metric, x, e, call, done)
    ensures done && Open(call.after, dim) && (I.EntryOnTop(x.state) ==> I.EntryOnTop(call.after.state))
    ensures Counts(call.after, nodes + (if e.id in keys then 0 else 1), keys + {e.id})
  {
    hide I.WellFormed, I.EntryOnTop, KeyMap, H.Inserts;
    var s := x.state;
    KeyMapKeys(s);
    if e.id !in s.idMap {
      NeverFaults(s, e.id, if call.level < 0 then 0 else call.level);
    }
    OpenInserts(metric, x, e.id, e.vector, e.metadata, call.level, call.after, done);
    InsertCounts(metric, x, e, call, dim);
    KeyMapKeys(call.after.state);
  }

  /** What an insertion that comes back does to the nodes and the keys. */
  lemma InsertCounts(metric: G.Metric, x: Served, e: BatchEntry, call: Call, dim: nat)
    requires Open(x, dim) && |e.vector| == dim && call.level >= 0 && !H.Faults(x.state, e.id, call.level)
    requires Serving.Inserts(metric, x, e, call, true)
    ensures var s, s' := x.state, call.after.state;
      && |s'.graph| == |s.graph| + (if e.id in s.idMap then 0 else 1)
      && s'.idMap.Keys == s.idMap.Keys + {e.id}
  {
    hide I.WellFormed, H.Inserts, KeyMap, H.Faults;
    var s := x.state;
    if e.id !in s.idMap {
      var log := InsertedHow(metric, x, e.id, e.vector, e.metadata, call.level, call.after, true);
      R.InsertLevels(metric, s, e.id, e.vector, e.metadata, call.level, log, call.after.state);
    }
  }

  lemma {:induction false} LoadsCount(metric: G.Metric, x: Served, batch: seq<BatchEntry>, k: nat,
                                      calls: G.Trail<Call>, dim: nat, nodes: nat, keys: set<string>)
    requires k <= |batch| && Loads(metric, x, batch, k, calls) && Open(x, dim) && Counts(x, nodes, keys)
    requires forall i :: 0 <= i < |batch| ==> |batch[i].vector| == dim
    requires IdsOf(batch) <= keys || I.EntryOnTop(x.state)
    ensures var y := Latest(x, calls);
      && Open(y, dim) && (I.EntryOnTop(x.state) ==> I.EntryOnTop(y.state))
      && Counts(y, nodes + |IdsOf(batch[..k]) - keys|, keys + IdsOf(batch[..k]))
  {
    hide Open, Counts, I.EntryOnTop, Serving.Inserts, IdsOf;
    if k == 0 {
      NoIds(batch, keys);
    } else {
      LoadsCount(metric, x, batch, k - 1, calls.before, dim, nodes, keys);
      OneMoreId(batch, k);
      IdIn(batch, k - 1);
      var ids := IdsOf(batch[..k - 1]);
      OpenInsertCounts(metric, Latest(x, calls.before), batch[k - 1], calls.last, true, dim, nodes + |ids - keys|,
                       keys + ids);
      OneMoreNew(ids, keys, batch[k - 1].id);
    }
  }

  lemma NoIds(batch: seq<BatchEntry>, keys: set<string>)
    ensures IdsOf(batch[..0]) - keys == {} && keys + IdsOf(batch[..0]) == keys
  {
  }

  lemma IdIn(batch: seq<BatchEntry>, i: nat)
    requires i < |batch|
    ensures batch[i].id in IdsOf(batch)
  {
  }

  lemma OneMoreNew(ids: set<string>, keys: set<string>, id: string)
    ensures |ids + {id} - keys| == |ids - keys| + if id in keys + ids then 0 else 1
    ensures keys + (ids + {id}) == keys + ids + {id}
  {
    assert ids + {id} - keys == if id in keys + ids then ids - keys else (ids - keys) + {id};
  }

  /** A batch into an open index comes to its end if it brings no new key, or the entry point is on top. */
  lemma FinishesCount(metric: G.Metric, x: Served, batch: seq<BatchEntry>, fate: Fate, x': Served, dim: nat,
                      nodes: nat, keys: set<string>)
    requires Finishes(metric, x, batch, fate, x') && Open(x, dim) && Counts(x, nodes, keys)
    requires forall i :: 0 <= i < |batch| ==> |batch[i].vector| == dim
    requires IdsOf(batch) <= keys || I.EntryOnTop(x.state)
    ensures fate.Answers? && Open(x', dim) && (I.EntryOnTop(x.state) ==> I.EntryOnTop(x'.state))
    ensures Counts(x', nodes + |IdsOf(batch) - keys|, keys + IdsOf(batch))
  {
    hide Open, Counts, I.EntryOnTop, Serving.Inserts, IdsOf;
    if fate.Answers? {
      var calls :| Loads(metric, x, batch, |batch|, calls) && x' == Latest(x, calls);
      LoadsCount(metric, x, batch, |batch|, calls, dim, nodes, keys);
      assert batch[..|batch|] == batch;
    } else {
      var calls, call :| Loads(metric, x, batch, fate.k, calls)
                         && Serving.Inserts(metric, Latest(x, calls), batch[fate.k], call, false);
      LoadsCount(metric, x, batch, fate.k, calls, dim, nodes, keys);
      IdIn(batch, fate.k);
      var ids := IdsOf(batch[..fate.k]);
      OpenInsertCounts(metric, Latest(x, calls), batch[fate.k], call, false, dim, nodes + |ids - keys|, keys + ids);
    }
  }

  /** With a single node there is no other that could inherit, and node 0 is its own heir. */
  lemma OneNodeKeepsEntry(s: H.State, key: string)
    requires I.WellFormed(s) && I.EntryOnTop(s) && |s.graph| <= 1
    ensures R.KeepsEntry(s, key)
  {
  }

  lemma DeleteCounts(x: Served, key: string, x': Served, done: bool, dim: nat, nodes: nat, keys: set<string>)
    requires Open(x, dim) && Counts(x, nodes, keys) && Deleting(x, key, x', done)
    ensures done && Open(x', dim) && Counts(x', nodes, keys - {key})
    ensures key !in keys ==> x' == x
    ensures I.EntryOnTop(x.state) && nodes <= 1 ==> I.EntryOnTop(x'.state)
  {
    hide I.WellFormed, I.EntryOnTop, R.KeepsEntry, KeyMap;
    OpenDeletes(x, dim, key, x', done);
    KeyMapKeys(x.state);
    KeyMapKeys(x'.state);
    DeletedSize(x.state, key);
    if I.EntryOnTop(x.state) && nodes <= 1 {
      OneNodeKeepsEntry(x.state, key);
      R.DeleteKeepsEntryExactly(x.state, key);
    }
  }

  lemma DeletedSize(s: H.State, key: string)
    requires |s.reverseMap| == |s.graph| && I.WellFormed(s)
    ensures var s' := H.Deleted(s, key);
      && |s'.graph| == |s.graph| && s'.idMap.Keys == s.idMap.Keys - {key} && (key !in s.idMap ==> s' == s)
  {
  }

  // ---------- one command ----------

  /** Every index is open and counted by the ledger, and its entry point is on top if no key was
      deleted from it while it had two nodes. */
  ghost predicate Secure(served: Indexes, dims: Dims, l: Ledger) {
    && served.Keys == l.tallies.Keys
    && forall ns :: ns in served ==> Secured(served[ns], dims(ns), l.tallies[ns], KeysIn(l, ns))
  }

  ghost predicate Secured(x: Served, dim: nat, t: Tally, keys: set<string>) {
    Open(x, dim) && Counts(x, t.nodes, keys) && (!t.loose ==> I.EntryOnTop(x.state))
  }

  lemma BatchSecure(metric: G.Metric, served: Indexes, ns: string, batch: seq<BatchEntry>, fate: Fate,
                    served': Indexes, dims: Dims, l: Ledger)
    requires Secure(served, dims, l) && InsertsBatch(metric, served, ns, batch, fate, served')
    requires forall i :: 0 <= i < |batch| ==> |batch[i].vector| == dims(ns)
    requires ns in l.tallies && l.tallies[ns].loose ==> IdsOf(batch) <= KeysIn(l, ns)
    ensures Secure(served', dims, Enters(l, ns, IdsOf(batch))) && (ns in served ==> fate.Answers?)
  {
    hide Open, Counts, I.EntryOnTop, Finishes, IdsOf;
    var l', ids, keys := Enters(l, ns, IdsOf(batch)), IdsOf(batch), KeysIn(l, ns);
    forall m ensures KeysIn(l', m) == if m == ns then keys + ids else KeysIn(l, m) {}
    if ns in served {
      var x' :| Finishes(metric, served[ns], batch, fate, x') && served' == served[ns := x'];
      assert Secured(served[ns], dims(ns), l.tallies[ns], keys);
      FinishesCount(metric, served[ns], batch, fate, x', dims(ns), l.tallies[ns].nodes, keys);
      assert Secured(x', dims(ns), l'.tallies[ns], keys + ids);
      forall m | m in served' ensures Secured(served'[m], dims(m), l'.tallies[m], KeysIn(l', m)) {
        assert m != ns ==> Secured(served[m], dims(m), l.tallies[m], KeysIn(l, m));
      }
    }
  }

  lemma DeleteSecure(args: seq<string>, fate: Fate, served: Indexes, served': Indexes, dims: Dims, l: Ledger)
    requires Secure(served, dims, l) && ServesVDel(args, fate, served, served')
    ensures Secure(served', dims, if |args| == 2 then Leaves(l, args[0], args[1]) else l)
    ensures |args| == 2 && args[0] in served ==> fate.Answers?
  {
    hide Open, Counts, I.EntryOnTop, Deleting;
    if |args| != 2 {
      return;
    }
    var ns, id := args[0], args[1];
    var l', keys := Leaves(l, ns, id), KeysIn(l, ns);
    forall m ensures KeysIn(l', m) == if m == ns then keys - {id} else KeysIn(l, m) {}
    if ns in served {
      var x', done :|
        && Deleting(served[ns], id, x', done) && served' == served[ns := x']
        && if done then fate.Answers?
           else fate.Dies? && fate.k == 0 && (fate.takes <==> x'.state != served[ns].state);
      assert Secured(served[ns], dims(ns), l.tallies[ns], keys);
      DeleteCounts(served[ns], id, x', done, dims(ns), l.tallies[ns].nodes, keys);
      assert Secured(x', dims(ns), l'.tallies[ns], keys - {id});
      forall m | m in served' ensures Secured(served'[m], dims(m), l'.tallies[m], KeysIn(l', m)) {
        assert m != ns ==> Secured(served[m], dims(m), l.tallies[m], KeysIn(l, m));
      }
    }
  }

  lemma ListedIds(batch: seq<BatchEntry>, all: map<string, Indexed>)
    requires Lists(batch, all)
    ensures IdsOf(batch) == all.Keys
  {
    forall id | id in all ensures id in IdsOf(batch) {
      var i :| 0 <= i < |batch| && batch[i].id == id;
    }
  }

  lemma NewIndexCounts(p: Params, dim: nat)
    requires 2 <= p.m && 2 * p.m <= MAX_CAPACITY && p.efConstruction > 0
    ensures Open(NewIndex(p), dim) && Counts(NewIndex(p), 0, {}) && I.EntryOnTop(NewIndex(p).state)
  {
  }

  lemma CreateSecure(metric: G.Metric, w: World, now: Time, args: seq<string>, fate: Fate, served: Indexes,
                     served': Indexes, dims: Dims, l: Ledger)
    requires |args| >= 2 && Tracks(w, l) && Secure(served, dims, l) && Sized(w.vectors, dims)
    requires Creates(metric, w, now, args, fate, served, served')
    requires var p := CreateParams(args, 2, Params(16, 200, 100));
      p.Some? ==> 2 <= p.value.m && 2 * p.value.m <= MAX_CAPACITY
    ensures var create := args[1] !in l.tallies && CreateParams(args, 2, Params(16, 200, 100)).Some?;
      && Secure(served', dims,
                if create then l.(tallies := l.tallies[args[1] := Tally(|KeysIn(l, args[1])|, false)]) else l)
      && (create ==> fate.Answers?)
  {
    hide Creates, Secure, CreateParams, Tracks, Sized;
    var p, ns := CreateParams(args, 2, Params(16, 200, 100)), args[1];
    SameIndexed(w, l, served, dims);
    if p.Some? && ns !in served {
      PositiveParams(args, 2, Params(16, 200, 100));
      var batch, x' := CreatedHow(metric, w, now, args, fate, served, served', p.value);
      LoadedSecure(metric, w, now, ns, batch, fate, x', dims, l, p.value);
      AddedSecure(served, dims, l, ns, x', Tally(|KeysIn(l, ns)|, false));
    } else {
      NothingCreated(metric, w, now, args, fate, served, served');
    }
  }

  lemma CreatedHow(metric: G.Metric, w: World, now: Time, args: seq<string>, fate: Fate, served: Indexes,
                   served': Indexes, p: Params) returns (batch: seq<BatchEntry>, x': Served)
    requires |args| >= 2 && Creates(metric, w, now, args, fate, served, served') && args[1] !in served
    requires CreateParams(args, 2, Params(16, 200, 100)) == Some(p)
    ensures Lists(batch, Loaded(w.vectors, now, args[1])) && Finishes(metric, NewIndex(p), batch, fate, x')
    ensures served' == served[args[1] := x']
  {
    hide Finishes, Lists, CreateParams, Loaded, NewIndex, IdsFrom;
    batch, x' :|
      && Lists(batch, Loaded(w.vectors, now, args[1])) && Finishes(metric, NewIndex(p), batch, fate, x')
      && served' == served[args[1] := x'];
  }

  lemma NothingCreated(metric: G.Metric, w: World, now: Time, args: seq<string>, fate: Fate, served: Indexes,
                       served': Indexes)
    requires |args| >= 2 && Creates(metric, w, now, args, fate, served, served')
    requires args[1] in served || CreateParams(args, 2, Params(16, 200, 100)) == None
    ensures served' == served
  {
    hide Finishes, Lists, CreateParams, Loaded;
  }

  lemma LoadedSecure(metric: G.Metric, w: World, now: Time, ns: string, batch: seq<BatchEntry>, fate: Fate, x': Served,
                     dims: Dims, l: Ledger, p: Params)
    requires Tracks(w, l) && Sized(w.vectors, dims) && 2 <= p.m && 2 * p.m <= MAX_CAPACITY && p.efConstruction > 0
    requires Lists(batch, Loaded(w.vectors, now, ns)) && Finishes(metric, NewIndex(p), batch, fate, x')
    ensures Secured(x', dims(ns), Tally(|KeysIn(l, ns)|, false), KeysIn(l, ns)) && fate.Answers?
  {
    hide Open, Counts, I.EntryOnTop, Finishes, IdsOf, Lists, Loaded, NewIndex, Sized, Tracks, KeysIn, StoredKeys;
    NewIndexCounts(p, dims(ns));
    ListedAreSized(w.vectors, now, ns, batch, dims);
    ListedIds(batch, Loaded(w.vectors, now, ns));
    TrackedStore(w, l, ns);
    AllLoadedKeys(w, now, ns);
    FinishesCount(metric, NewIndex(p), batch, fate, x', dims(ns), 0, {});
    FromNothing(IdsOf(batch));
  }

  lemma FromNothing(ids: set<string>)
    ensures ids - {} == ids && {} + ids == ids
  {
  }

  lemma TrackedStore(w: World, l: Ledger, ns: string)
    requires Tracks(w, l)
    ensures NoTtls(w) && StoredKeys(w, ns) == KeysIn(l, ns)
  {
  }

  lemma AddedSecure(served: Indexes, dims: Dims, l: Ledger, ns: string, x: Served, t: Tally)
    requires Secure(served, dims, l) && Secured(x, dims(ns), t, KeysIn(l, ns))
    ensures Secure(served[ns := x], dims, l.(tallies := l.tallies[ns := t]))
  {
    hide Secured;
    var l' := l.(tallies := l.tallies[ns := t]);
    forall m | m in served[ns := x]
      ensures Secured(served[ns := x][m], dims(m), l'.tallies[m], KeysIn(l', m)) && KeysIn(l', m) == KeysIn(l, m)
    {
      assert m != ns ==> Secured(served[m], dims(m), l.tallies[m], KeysIn(l, m));
    }
  }

  lemma DropSecure(served: Indexes, dims: Dims, l: Ledger, ns: string)
    requires Secure(served, dims, l)
    ensures Secure(served - {ns}, dims, l.(tallies := l.tallies - {ns}))
    ensures Secure(served - {ns}, dims, Ledger(l.keys - {ns}, l.tallies - {ns}))
  {
    hide Secured;
    var a, b := l.(tallies := l.tallies - {ns}), Ledger(l.keys - {ns}, l.tallies - {ns});
    forall m | m in served && m != ns
      ensures Secured(served[m], dims(m), a.tallies[m], KeysIn(a, m)) && KeysIn(b, m) == KeysIn(a, m)
    {
      assert Secured(served[m], dims(m), l.tallies[m], KeysIn(l, m));
    }
  }

  lemma EfSecured(x: Served, dim: nat, t: Tally, keys: set<string>, ef: int)
    requires Secured(x, dim, t, keys)
    ensures Secured(x.(state := x.state.(ef := ef)), dim, t, keys)
  {
  }

  lemma SetEfSecure(served: Indexes, args: seq<string>, fate: Fate, served': Indexes, dims: Dims, l: Ledger)
    requires |args| >= 2 && Secure(served, dims, l) && SetsEf(served, args, fate, served')
    ensures Secure(served', dims, l)
    ensures |args| == 3 && args[1] in served && Atoi(args[2]).Some? && Atoi(args[2]).value > 0 ==> fate.Answers?
  {
    hide Secured, Atoi;
    var ns := args[1];
    if |args| == 3 && ns in served && Atoi(args[2]).Some? && Atoi(args[2]).value > 0 {
      assert Secured(served[ns], dims(ns), l.tallies[ns], KeysIn(l, ns));
      SecuredIsOpen(served[ns], dims(ns), l.tallies[ns], KeysIn(l, ns));
      EfSecured(served[ns], dims(ns), l.tallies[ns], KeysIn(l, ns), Atoi(args[2]).value);
      forall m | m in served' ensures Secured(served'[m], dims(m), l.tallies[m], KeysIn(l, m)) {
        assert m != ns ==> Secured(served[m], dims(m), l.tallies[m], KeysIn(l, m));
      }
    }
  }

  lemma SecuredIsOpen(x: Served, dim: nat, t: Tally, keys: set<string>)
    requires Secured(x, dim, t, keys)
    ensures !x.closed
  {
  }

  lemma IndexSecure(metric: G.Metric, w: World, now: Time, args: seq<string>, fate: Fate, served: Indexes,
                    served': Indexes, dims: Dims, l: Ledger)
    requires Tracks(w, l) && Secure(served, dims, l) && Sized(w.vectors, dims) && Represents(served, w.indexes)
    requires ServesVIndex(metric, w, now, args, fate, served, served') && KeepsParams(Command("VINDEX", args))
    ensures Secure(served', dims, if |args| >= 2 then Retallied(l, args) else l)
    ensures !HandleVIndex(w, now, args, fate).1.Silence?
  {
    hide Creates, SetsEf, Secure, ToUpper, CreateParams, Sized, Tracks, Loaded, Represents, Atoi;
    SameIndexed(w, l, served, dims);
    if |args| >= 2 {
      var sub, ns := ToUpper(args[0]), args[1];
      if sub == "CREATE" {
        CreateSecure(metric, w, now, args, fate, served, served', dims, l);
      } else if sub == "SET_EF" {
        SetEfSecure(served, args, fate, served', dims, l);
      } else if sub == "DROP" {
        DropSecure(served, dims, l, ns);
      } else if sub == "INFO" {
        InfoAnswers(served, dims, l, ns, fate);
      }
    }
  }

  lemma SameIndexed(w: World, l: Ledger, served: Indexes, dims: Dims)
    requires Tracks(w, l) && Secure(served, dims, l)
    ensures w.indexes.Keys == l.tallies.Keys == served.Keys
  {
  }

  lemma InfoAnswers(served: Indexes, dims: Dims, l: Ledger, ns: string, fate: Fate)
    requires Secure(served, dims, l) && (ns in served ==> Looks(served[ns], fate))
    ensures ns in served ==> fate.Answers?
  {
    if ns in served {
      assert Secured(served[ns], dims(ns), l.tallies[ns], KeysIn(l, ns));
    }
  }

  /** A logged command that takes no risk is answered, whatever is drawn. */
  lemma RiskFreeIsAnswered(metric: G.Metric, n: Numerals, w: World, now: Time, cmd: Command, fate: Fate,
                           served: Indexes, served': Indexes, dims: Dims, l: Ledger)
    requires Tracks(w, l) && Secure(served, dims, l) && Sized(w.vectors, dims) && Represents(served, w.indexes)
    requires Fine(n, dims, cmd) && !Risks(n, l, cmd)
    requires Serves(metric, n, w, now, true, cmd, fate, served, served')
    ensures !Execute(n, w, now, true, cmd, fate).1.Silence? && Secure(served', dims, Tallied(n, l, cmd))
  {
    hide Tracks, Secure, Sized, Represents, ParseVSet, Decode, InsertsBatch, ServesVDel, ServesVIndex, ToUpper, Enters,
      Leaves, Retallied, HandleVIndex, TtlFree, KeepsParams, IsMutative, IdsOf, KeysIn;
    SameIndexed(w, l, served, dims);
    var name, args := cmd.name, cmd.args;
    if name == "VSET" {
      if ParseVSet(n, args).Some? {
        var a := ParseVSet(n, args).value;
        var batch := [BatchEntry(a.id, a.vector, a.metadata)];
        OneId(batch);
        BatchSecure(metric, served, a.ns, batch, fate, served', dims, l);
      }
      VSetAnswers(n, w, now, args, fate, served);
    } else if name == "VMSET" {
      if Decode(n, args).Entries? {
        DecodedDims(n, args);
        BatchSecure(metric, served, args[0], BatchOf(Decode(n, args).entries), fate, served', dims, l);
      }
      VMSetAnswers(n, w, now, args, fate, served);
    } else if name == "VDEL" {
      DeleteSecure(args, fate, served, served', dims, l);
      VDelAnswers(w, args, fate);
    } else if name == "VINDEX" {
      assert KeepsParams(Command("VINDEX", args)) by { SameParams(cmd); }
      IndexSecure(metric, w, now, args, fate, served, served', dims, l);
    } else {
      if |args| == 2 {
        DropSecure(served, dims, l, args[1]);
      }
      OthersAnswer(n, w, now, cmd, fate);
    }
  }

  lemma SameParams(cmd: Command)
    requires KeepsParams(cmd) && cmd.name == "VINDEX"
    ensures KeepsParams(Command("VINDEX", cmd.args))
  {
    assert cmd == Command("VINDEX", cmd.args);
  }

  lemma OneId(batch: seq<BatchEntry>)
    requires |batch| == 1
    ensures IdsOf(batch) == {batch[0].id}
  {
  }

  lemma VSetAnswers(n: Numerals, w: World, now: Time, args: seq<string>, fate: Fate, served: Indexes)
    requires ParseVSet(n, args).Some? && ParseVSet(n, args).value.ns in w.indexes ==> fate.Answers?
    ensures !HandleVSet(n, w, now, args, fate).1.Silence?
  {
    hide ParseVSet, Insert, Put;
  }

  lemma VMSetAnswers(n: Numerals, w: World, now: Time, args: seq<string>, fate: Fate, served: Indexes)
    requires Decode(n, args) != Failed(Panic)
    requires Decode(n, args).Entries? && |args| >= 4 && args[0] in w.indexes ==> fate.Answers?
    ensures !HandleVMSet(n, w, now, args, fate).1.Silence?
  {
    hide Decode, InsertAll, PutAll;
    if Decode(n, args).Entries? {
      DecodedDims(n, args);
    }
  }

  lemma VDelAnswers(w: World, args: seq<string>, fate: Fate)
    requires |args| == 2 && args[0] in w.indexes ==> fate.Answers?
    ensures !HandleVDel(w, args, fate).1.Silence?
  {
    hide VDel, Remove;
  }

  lemma SearchIsNotLogged(name: string)
    requires IsMutative(name)
    ensures name != "VSIMILARITY"
  {
    var k :| 0 <= k < |MUTATIVE| && MUTATIVE[k] == name;
  }

  lemma OthersAnswer(n: Numerals, w: World, now: Time, cmd: Command, fate: Fate)
    requires IsMutative(cmd.name) && ToUpper(cmd.name) == cmd.name && cmd.name !in ["VSET", "VMSET", "VDEL", "VINDEX"]
    ensures !Execute(n, w, now, true, cmd, fate).1.Silence?
  {
    hide Execute, ToUpper, IsMutative;
    SearchIsNotLogged(cmd.name);
    if Execute(n, w, now, true, cmd, fate).1.Silence? {
      OnlyIndexed(n, w, now, true, cmd, fate);
    }
  }

  // ---------- runs ----------

  /** The conditions on a log hold of its first lines too. */
  lemma {:induction false} RiskFreeFront(n: Numerals, cmds: seq<Command>, k: nat)
    requires k <= |cmds| && !Risky(n, cmds)
    ensures !Risky(n, cmds[..k])
    decreases |cmds|
  {
    if k < |cmds| {
      RiskFreeFront(n, cmds[..|cmds| - 1], k);
      assert cmds[..|cmds| - 1][..k] == cmds[..k];
    } else {
      assert cmds[..k] == cmds;
    }
  }

  lemma NothingSecure(dims: Dims)
    ensures Secure(map[], dims, EMPTY_LEDGER)
  {
  }

  /** On a log that takes no risk every replay answers every command, whatever it draws. */
  lemma {:induction false} RiskFreeReplays(metric: G.Metric, n: Numerals, dims: Dims, cmds: seq<Command>,
                                           clock: nat -> Time, events: seq<Event>, run: G.Trail<Indexes>)
    requires AllFine(n, dims, cmds) && !Risky(n, cmds)
    requires Replays(events, cmds, clock) && ServedRuns(metric, n, events, run)
    ensures Answered(n, events) && Sized(After(n, events).vectors, dims)
    ensures var l := Book(n, cmds[..|events|]); Tracks(After(n, events), l) && Secure(Current(run), dims, l)
    decreases |events|
  {
    hide Serves, Represents, Execute, Sized, Secure, Tracks, Risks, Tallied, Replays, Fine;
    if events == [] {
      assert cmds[..0] == [];
      NothingSized(dims);
      NothingSecure(dims);
      NothingTracked();
    } else {
      var k := |events| - 1;
      var front, e := events[..k], events[k];
      ReplaysFront(events, cmds, clock);
      ReplayLength(events, cmds, clock);
      RiskFreeReplays(metric, n, dims, cmds, clock, front, run.before);
      RunsRefine(metric, n, front, run.before);
      RiskFreeFront(n, cmds, k + 1);
      assert cmds[..k + 1][..k] == cmds[..k];
      var w, l := After(n, front), Book(n, cmds[..k]);
      assert Fine(n, dims, cmds[k]);
      RiskFreeIsAnswered(metric, n, w, clock(k), cmds[k], e.fate, Current(run.before), run.last, dims, l);
      AnswerIsWhole(n, w, clock(k), true, cmds[k], e.fate);
      TalliedTracks(n, dims, w, clock(k), cmds[k], l);
      FineKeepsDims(n, dims, cmds[k]);
      ExecuteKeepsSized(n, w, clock(k), true, cmds[k], e.fate, dims);
    }
  }

  lemma ReplayLength(events: seq<Event>, cmds: seq<Command>, clock: nat -> Time)
    requires Replays(events, cmds, clock)
    ensures |events| <= |cmds|
  {
  }

  lemma FineKeepsDims(n: Numerals, dims: Dims, cmd: Command)
    requires Fine(n, dims, cmd)
    ensures KeepsDims(n, dims, cmd)
  {
  }
}
