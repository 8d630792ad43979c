/** When a replay can die, exactly: on the logs that take a risk. */
module ServingRisk {
  import opened Text
  import opened Decimal
  import opened CommandText
  import opened Aof
  import opened Vmset
  import opened StoreSpec
  import opened ServerSpec
  import opened Agreement
  import opened Replay
  import opened HnswServed
  import opened Serving
  import opened ServingRuns
  import opened ServingLedger
  import opened ServingReplay
  import opened ServingDraws
  import H = HnswSpec
  import G = HnswGraph
  import I = HnswInvariant

  // ---------- effects are what commands do ----------

  lemma EffectServes(metric: G.Metric, n: Numerals, dims: Dims, w: World, now: Time, cmd: Command, l: Ledger,
                     listed: seq<BatchEntry>, served: Indexes, served': Indexes)
    requires Fine(n, dims, cmd) && w.indexes.Keys == l.tallies.Keys == served.Keys
    requires forall m :: m in served ==> !served[m].closed
    requires var eff := EffectOf(n, l, cmd);
      && Affects(metric, eff, listed, served, served')
      && (eff.Make? ==> Lists(listed, Loaded(w.vectors, now, eff.ns)))
    ensures Serves(metric, n, w, now, true, cmd, Answers, served, served')
  {
    hide ParseVSet, Decode, InsertsBatch, Deleting, Finishes, Lists, Loaded, ToUpper, CreateParams, KeepsDims,
      KeepsParams, TtlFree, IsMutative, Atoi, ServesVIndex, IndexEffect;
    var name, args := cmd.name, cmd.args;
    SearchIsNotLogged(cmd.name);
    if name == "VINDEX" && |args| >= 2 {
      IndexServes(metric, w, now, args, l, listed, served, served');
    } else if name == "VINDEX" {
      ShortIndex(metric, w, now, args, served);
    } else if name == "VDEL" && |args| == 2 {
      TakeServes(args, served, served');
    }
  }

  lemma ShortIndex(metric: G.Metric, w: World, now: Time, args: seq<string>, served: Indexes)
    requires |args| < 2
    ensures ServesVIndex(metric, w, now, args, Answers, served, served)
  {
  }

  lemma TakeServes(args: seq<string>, served: Indexes, served': Indexes)
    requires |args| == 2
    requires if args[0] in served then
        exists x' :: Deleting(served[args[0]], args[1], x', true) && served' == served[args[0] := x']
      else served' == served
    ensures ServesVDel(args, Answers, served, served')
  {
    hide Deleting;
    if args[0] in served {
      var x' :| Deleting(served[args[0]], args[1], x', true) && served' == served[args[0] := x'];
      assert Deleting(served[args[0]], args[1], x', true) && Answers.Answers?;
    }
  }

  lemma IndexServes(metric: G.Metric, w: World, now: Time, args: seq<string>, l: Ledger, listed: seq<BatchEntry>,
                    served: Indexes, served': Indexes)
    requires |args| >= 2 && w.indexes.Keys == l.tallies.Keys == served.Keys
    requires forall m :: m in served ==> !served[m].closed
    requires var eff := IndexEffect(l, args);
      && Affects(metric, eff, listed, served, served')
      && (eff.Make? ==> Lists(listed, Loaded(w.vectors, now, eff.ns)))
    ensures ServesVIndex(metric, w, now, args, Answers, served, served')
  {
    hide Finishes, Lists, Loaded, ToUpper, CreateParams, Atoi, InsertsBatch, Deleting, IdsFrom;
    if IndexEffect(l, args).Make? {
      var p := CreateParams(args, 2, Params(16, 200, 100)).value;
      var x' :| Finishes(metric, NewIndex(p), listed, Answers, x') && served' == served[args[1] := x'];
      assert Creates(metric, w, now, args, Answers, served, served');
    }
  }

  /** What the ledger makes of an effect. */
  lemma EffectTallies(n: Numerals, l: Ledger, cmd: Command)
    requires IsMutative(cmd.name) && ToUpper(cmd.name) == cmd.name
    ensures var eff, l' := EffectOf(n, l, cmd), Tallied(n, l, cmd);
      match eff
      case Nothing => l' == l
      case Enter(ns, batch) => l' == Enters(l, ns, IdsOf(batch)) && Stored(n, cmd) == Some((ns, IdsOf(batch)))
      case Take(ns, id) => l' == Leaves(l, ns, id)
      case Make(ns, _) => l' == l.(tallies := l.tallies[ns := Tally(|KeysIn(l, ns)|, false)]) && ns !in l.tallies
      case Tune(ns, _) => l' == l && ns in l.tallies
      case Drop(ns) => l'.tallies == l.tallies - {ns} && forall m :: m != ns ==> KeysIn(l', m) == KeysIn(l, m)
  {
    hide ParseVSet, Decode, ToUpper, CreateParams, Atoi, IsMutative, Enters, Leaves, IdsOf;
    if EffectOf(n, l, cmd).Enter? && cmd.name == "VSET" {
      OneId(EffectOf(n, l, cmd).batch);
    }
  }

  lemma EffectIsFit(n: Numerals, dims: Dims, l: Ledger, cmd: Command)
    requires Fine(n, dims, cmd)
    ensures EffectFits(EffectOf(n, l, cmd), dims)
  {
    hide ParseVSet, Decode, ToUpper, CreateParams, Atoi, IsMutative, TtlFree;
    if cmd.name == "VMSET" && Decode(n, cmd.args).Entries? {
      DecodedDims(n, cmd.args);
    } else if cmd.name == "VINDEX" && |cmd.args| >= 2 {
      PositiveParams(cmd.args, 2, Params(16, 200, 100));
    }
  }

  // ---------- the runs in which a replay has been answered so far ----------

  function AnswerEvents(cmds: seq<Command>, clock: nat -> Time): seq<Event> {
    seq(|cmds|, k requires 0 <= k < |cmds| => Request(clock(k), true, cmds[k], Answers))
  }

  lemma AnswerEventsNext(cmds: seq<Command>, cmd: Command, clock: nat -> Time)
    ensures AnswerEvents(cmds + [cmd], clock)
         == AnswerEvents(cmds, clock) + [Request(clock(|cmds|), true, cmd, Answers)]
  {
  }

  lemma BookNext(n: Numerals, cmds: seq<Command>, cmd: Command)
    ensures Book(n, cmds + [cmd]) == Tallied(n, Book(n, cmds), cmd)
    ensures Risky(n, cmds + [cmd]) <==> Risky(n, cmds) || Risks(n, Book(n, cmds), cmd)
  {
    assert (cmds + [cmd])[..|cmds|] == cmds;
  }

  lemma AfterMore(n: Numerals, events: seq<Event>, e: Event)
    ensures After(n, events + [e]) == Next(n, After(n, events), e)
  {
    assert (events + [e])[..|events|] == events;
  }

  lemma {:induction false} AnswersTrack(n: Numerals, dims: Dims, cmds: seq<Command>, clock: nat -> Time)
    requires AllFine(n, dims, cmds)
    ensures var w := After(n, AnswerEvents(cmds, clock)); Tracks(w, Book(n, cmds)) && Sized(w.vectors, dims)
  {
    hide Tracks, Sized, Execute, Tallied, Fine;
    if cmds == [] {
      NothingTracked();
      NothingSized(dims);
    } else {
      var k := |cmds| - 1;
      var front, last := cmds[..k], cmds[k];
      assert cmds == front + [last];
      AnswersTrack(n, dims, front, clock);
      AnswerEventsNext(front, last, clock);
      AfterMore(n, AnswerEvents(front, clock), Request(clock(k), true, last, Answers));
      BookNext(n, front, last);
      var w := After(n, AnswerEvents(front, clock));
      TalliedTracks(n, dims, w, clock(k), last, Book(n, front));
      FineKeepsDims(n, dims, last);
      ExecuteKeepsSized(n, w, clock(k), true, last, Answers, dims);
    }
  }

  /** Some draws lead to indexes in the mode. */
  ghost predicate Can(metric: G.Metric, n: Numerals, dims: Dims, cmds: seq<Command>, clock: nat -> Time, ns: string,
                      mode: Mode, names: Names) {
    exists run :: ServedRuns(metric, n, AnswerEvents(cmds, clock), run) && Calm(Current(run), dims, ns, mode, names)
  }

  lemma RunMore(metric: G.Metric, n: Numerals, events: seq<Event>, e: Event, run: G.Trail<Indexes>, served: Indexes)
    requires ServedRuns(metric, n, events, run) && e.Request?
    requires Serves(metric, n, After(n, events), e.now, e.allowed, e.cmd, e.fate, Current(run), served)
    ensures ServedRuns(metric, n, events + [e], G.Then(run, served))
  {
    hide Serves;
    assert (events + [e])[..|events|] == events;
  }

  lemma CalmIsOpen(served: Indexes, dims: Dims, ns: string, mode: Mode, names: Names)
    requires Calm(served, dims, ns, mode, names)
    ensures forall m :: m in served ==> !served[m].closed && I.WellFormed(served[m].state)
  {
    hide I.WellFormed, IsPeak, IsFallen;
    forall m | m in served ensures !served[m].closed && I.WellFormed(served[m].state) {
      assert In(served[m], dims(m), if m == ns then mode else Flat);
    }
  }

  /** The keys of a calm index are those that the ledger knows. */
  lemma CalmKeys(w: World, l: Ledger, served: Indexes, dims: Dims, ns: string, mode: Mode, names: Names, m: string)
    requires Calm(served, dims, ns, mode, names) && Represents(served, w.indexes) && Tracks(w, l)
    ensures served.Keys == w.indexes.Keys == l.tallies.Keys
    ensures m in served ==> served[m].state.idMap.Keys == KeysIn(l, m) && "" !in served[m].state.idMap
    ensures m in served && m == ns ==> names.ids.Keys == KeysIn(l, m)
  {
    hide Calm, KeyMap, NoTtls, StoredKeys, Sound;
    CalmIsOpen(served, dims, ns, mode, names);
    if m in served {
      KeyMapKeys(served[m].state);
      assert Shows(served[m]) == w.indexes[m];
      assert "" !in KeysIn(l, m);
      if m == ns {
        CalmNames(served, dims, ns, mode, names);
      }
    }
  }

  lemma CalmNames(served: Indexes, dims: Dims, ns: string, mode: Mode, names: Names)
    requires Calm(served, dims, ns, mode, names) && ns in served
    ensures names == Names(served[ns].state.reverseMap, served[ns].state.idMap)
  {
    hide In;
  }

  /** One command more, in a mode that allows it. */
  lemma RunNext(metric: G.Metric, n: Numerals, dims: Dims, cmds: seq<Command>, cmd: Command, clock: nat -> Time,
                ns: string, mode: Mode, names: Names, listed: seq<BatchEntry>, run: G.Trail<Indexes>)
    returns (served': Indexes)
    requires AllFine(n, dims, cmds) && Fine(n, dims, cmd)
    requires ServedRuns(metric, n, AnswerEvents(cmds, clock), run) && Calm(Current(run), dims, ns, mode, names)
    requires var l := Book(n, cmds);
      && Allows(mode, names, ns, ns in l.tallies, EffectOf(n, l, cmd))
      && (EffectOf(n, l, cmd).Make? ==>
            Lists(listed, Loaded(After(n, AnswerEvents(cmds, clock)).vectors, clock(|cmds|), EffectOf(n, l, cmd).ns)))
    ensures ServedRuns(metric, n, AnswerEvents(cmds + [cmd], clock), G.Then(run, served'))
    ensures var eff, indexed := EffectOf(n, Book(n, cmds), cmd), ns in Book(n, cmds).tallies;
      Calm(served', dims, ns, ModeThen(mode, names, ns, indexed, eff), NamesThen(names, ns, indexed, eff, listed))
  {
    hide Serves, Calm, Execute, Tracks, Sized, Represents, EffectOf, Fine, Loaded, Lists, Allows, Affects, EffectFits,
      ModeThen, NamesThen;
    var events, l, k := AnswerEvents(cmds, clock), Book(n, cmds), |cmds|;
    var eff, w := EffectOf(n, l, cmd), After(n, events);
    var served := Current(run);
    RunsRefine(metric, n, events, run);
    AnswersTrack(n, dims, cmds, clock);
    CalmKeys(w, l, served, dims, ns, mode, names, if eff.Take? then eff.ns else ns);
    CalmIsOpen(served, dims, ns, mode, names);
    EffectIsFit(n, dims, l, cmd);
    FineIsMutative(n, dims, cmd);
    EffectTallies(n, l, cmd);
    if eff.Make? {
      ListedAreSized(w.vectors, clock(k), eff.ns, listed, dims);
    }
    served' := EffectHappens(metric, eff, listed, served, dims, ns, mode, names);
    EffectServes(metric, n, dims, w, clock(k), cmd, l, listed, served, served');
    AnswerEventsNext(cmds, cmd, clock);
    RunMore(metric, n, events, Request(clock(k), true, cmd, Answers), run, served');
  }

  lemma CanNext(metric: G.Metric, n: Numerals, dims: Dims, cmds: seq<Command>, cmd: Command, clock: nat -> Time,
                ns: string, mode: Mode, names: Names, listed: seq<BatchEntry>)
    requires AllFine(n, dims, cmds) && Fine(n, dims, cmd) && Can(metric, n, dims, cmds, clock, ns, mode, names)
    requires var l := Book(n, cmds);
      && Allows(mode, names, ns, ns in l.tallies, EffectOf(n, l, cmd))
      && (EffectOf(n, l, cmd).Make? ==>
            Lists(listed, Loaded(After(n, AnswerEvents(cmds, clock)).vectors, clock(|cmds|), EffectOf(n, l, cmd).ns)))
    ensures var l := Book(n, cmds);
      var eff, indexed := EffectOf(n, l, cmd), ns in l.tallies;
      Can(metric, n, dims, cmds + [cmd], clock, ns, ModeThen(mode, names, ns, indexed, eff),
          NamesThen(names, ns, indexed, eff, listed))
  {
    hide ServedRuns, Calm, EffectOf, Fine, AllFine, Loaded, Lists, Allows, ModeThen, NamesThen, Book, After;
    var run :| ServedRuns(metric, n, AnswerEvents(cmds, clock), run) && Calm(Current(run), dims, ns, mode, names);
    var served' := RunNext(metric, n, dims, cmds, cmd, clock, ns, mode, names, listed, run);
    assert Current(G.Then(run, served')) == served';
  }

  lemma FineIsMutative(n: Numerals, dims: Dims, cmd: Command)
    requires Fine(n, dims, cmd)
    ensures IsMutative(cmd.name) && ToUpper(cmd.name) == cmd.name
  {
  }

  // ---------- all the modes that some draws lead to ----------

  /** The names of an index match what the ledger counts; while it is not loose only node 0 can be gone. */
  ghost predicate Ordered(names: Names, t: Tally, keys: set<string>) {
    && names.ids.Keys == keys && "" !in keys && |names.order| == t.nodes
    && (forall z :: z in names.ids ==> 0 <= names.ids[z] < |names.order| && names.order[names.ids[z]] == z)
    && (!t.loose ==>
          forall i :: 1 <= i < |names.order| ==> names.order[i] in names.ids && names.ids[names.order[i]] == i)
  }

  /** Some draws lead to all nodes on the ground; for every live key some lead to its node alone
      being high; and where the index is loose some lead to it fallen. */
  ghost predicate Family(metric: G.Metric, n: Numerals, dims: Dims, cmds: seq<Command>, clock: nat -> Time, ns: string,
                         names: Names) {
    var l := Book(n, cmds);
    && Can(metric, n, dims, cmds, clock, ns, Flat, names)
    && (ns in l.tallies ==>
          && Ordered(names, l.tallies[ns], KeysIn(l, ns))
          && (forall z :: z in names.ids ==> Can(metric, n, dims, cmds, clock, ns, Peak(z), names))
          && (l.tallies[ns].loose ==> Can(metric, n, dims, cmds, clock, ns, Fallen, names)))
  }

  lemma {:induction false} NamedAllOrdered(names: Names, t: Tally, keys: set<string>, batch: seq<BatchEntry>, k: nat)
    requires Ordered(names, t, keys) && k <= |batch| && "" !in IdsOf(batch)
    ensures Ordered(NamedAll(names, batch, k), Tally(t.nodes + |IdsOf(batch[..k]) - keys|, t.loose),
                    keys + IdsOf(batch[..k]))
  {
    hide Ordered, IdsOf, Named;
    if k == 0 {
      NoIds(batch, keys);
    } else {
      NamedAllOrdered(names, t, keys, batch, k - 1);
      OneMoreId(batch, k);
      IdIn(batch, k - 1);
      var ids := IdsOf(batch[..k - 1]);
      OneMoreNew(ids, keys, batch[k - 1].id);
      NamedOrdered(NamedAll(names, batch, k - 1), Tally(t.nodes + |ids - keys|, t.loose), keys + ids, batch[k - 1].id);
    }
  }

  lemma NamedOrdered(names: Names, t: Tally, keys: set<string>, key: string)
    requires Ordered(names, t, keys) && key != ""
    ensures Ordered(Named(names, key), Tally(t.nodes + (if key in keys then 0 else 1), t.loose), keys + {key})
  {
    if key in keys {
      assert keys + {key} == keys;
    }
  }

  lemma TakenOrdered(names: Names, t: Tally, keys: set<string>, id: string)
    requires Ordered(names, t, keys) && id in keys
    ensures Ordered(Names(names.order, names.ids - {id}), Tally(t.nodes, t.loose || t.nodes >= 2), keys - {id})
    ensures !t.loose && t.nodes >= 2 ==> Moves(names, id)
  {
    if !t.loose && t.nodes >= 2 {
      var k := names.order[1];
      assert k in names.ids && names.ids[k] == 1;
    }
  }

  /** With the key not there, the mode with it high is the flat one. */
  lemma FlatIsPeak(metric: G.Metric, n: Numerals, dims: Dims, cmds: seq<Command>, clock: nat -> Time, ns: string,
                   names: Names, z: string)
    requires Can(metric, n, dims, cmds, clock, ns, Flat, names)
    requires z !in names.ids || ns !in Book(n, cmds).tallies
    requires AllFine(n, dims, cmds)
    ensures Can(metric, n, dims, cmds, clock, ns, Peak(z), names)
  {
    hide Open, Execute, Serves, Tracks, Sized, Represents;
    var events := AnswerEvents(cmds, clock);
    var run :| ServedRuns(metric, n, events, run) && Calm(Current(run), dims, ns, Flat, names);
    RunsRefine(metric, n, events, run);
    AnswersTrack(n, dims, cmds, clock);
    CalmKeys(After(n, events), Book(n, cmds), Current(run), dims, ns, Flat, names, ns);
    PeakCalm(Current(run), dims, ns, names, z);
  }

  lemma PeakCalm(served: Indexes, dims: Dims, ns: string, names: Names, z: string)
    requires Calm(served, dims, ns, Flat, names) && (ns in served ==> z !in names.ids)
    ensures Calm(served, dims, ns, Peak(z), names)
  {
    hide Open;
    if ns in served {
      assert In(served[ns], dims(ns), Flat) && NamesOf(served[ns].state) == names;
    }
    forall m | m in served ensures In(served[m], dims(m), if m == ns then Peak(z) else Flat) {
      assert In(served[m], dims(m), Flat);
    }
  }

  /** What an effect elsewhere, or none, leaves: the modes and names as they were. */
  lemma SameFamily(metric: G.Metric, n: Numerals, dims: Dims, cmds: seq<Command>, cmd: Command, clock: nat -> Time,
                   ns: string, names: Names, listed: seq<BatchEntry>)
    requires AllFine(n, dims, cmds) && Fine(n, dims, cmd) && Family(metric, n, dims, cmds, clock, ns, names)
    requires var l, eff := Book(n, cmds), EffectOf(n, Book(n, cmds), cmd);
      && (eff.Make? ==>
            Lists(listed, Loaded(After(n, AnswerEvents(cmds, clock)).vectors, clock(|cmds|), eff.ns)))
      && (eff.Enter? || eff.Take? || eff.Make? ==> eff.ns != ns)
    ensures Family(metric, n, dims, cmds + [cmd], clock, ns, names)
  {
    hide Can, Fine, EffectOf, Ordered, Lists, Loaded, Execute, Tallied, IdsOf;
    var l, eff := Book(n, cmds), EffectOf(n, Book(n, cmds), cmd);
    BookNext(n, cmds, cmd);
    FineIsMutative(n, dims, cmd);
    EffectTallies(n, l, cmd);
    CanNext(metric, n, dims, cmds, cmd, clock, ns, Flat, names, listed);
    var l' := Book(n, cmds + [cmd]);
    if ns in l'.tallies {
      SameTally(l, l', eff, ns);
      forall z | z in names.ids ensures Can(metric, n, dims, cmds + [cmd], clock, ns, Peak(z), names) {
        CanNext(metric, n, dims, cmds, cmd, clock, ns, Peak(z), names, listed);
      }
      if l.tallies[ns].loose {
        CanNext(metric, n, dims, cmds, cmd, clock, ns, Fallen, names, listed);
      }
    }
  }

  lemma SameTally(l: Ledger, l': Ledger, eff: Effect, ns: string)
    requires ns in l'.tallies && (eff.Enter? || eff.Take? || eff.Make? ==> eff.ns != ns)
    requires match eff
      case Nothing => l' == l
      case Enter(ns, batch) => l' == Enters(l, ns, IdsOf(batch))
      case Take(ns, id) => l' == Leaves(l, ns, id)
      case Make(ns, _) => l' == l.(tallies := l.tallies[ns := Tally(|KeysIn(l, ns)|, false)])
      case Tune(ns, _) => l' == l
      case Drop(ns) => l'.tallies == l.tallies - {ns} && forall m :: m != ns ==> KeysIn(l', m) == KeysIn(l, m)
    ensures ns in l.tallies && l'.tallies[ns] == l.tallies[ns] && KeysIn(l', ns) == KeysIn(l, ns)
  {
  }

  lemma EnterFamily(metric: G.Metric, n: Numerals, dims: Dims, cmds: seq<Command>, cmd: Command, clock: nat -> Time,
                    ns: string, names: Names, batch: seq<BatchEntry>) returns (names': Names)
    requires AllFine(n, dims, cmds) && Fine(n, dims, cmd) && Family(metric, n, dims, cmds, clock, ns, names)
    requires EffectOf(n, Book(n, cmds), cmd) == Enter(ns, batch) && !Risks(n, Book(n, cmds), cmd)
    requires "" !in IdsOf(batch)
    ensures Family(metric, n, dims, cmds + [cmd], clock, ns, names')
  {
    hide Can, Fine, EffectOf, Ordered, Execute, Tallied, IdsOf, NamedAll, Book, Enters, AllFine, Risks;
    var l, l' := Book(n, cmds), Book(n, cmds + [cmd]);
    BookNext(n, cmds, cmd);
    FineIsMutative(n, dims, cmd);
    EffectTallies(n, l, cmd);
    EnteredTally(l, ns, IdsOf(batch));
    CanNext(metric, n, dims, cmds, cmd, clock, ns, Flat, names, []);
    if ns !in l.tallies {
      names' := names;
      return;
    }
    names' := NamedAll(names, batch, |batch|);
    EnteredOrdered(names, l, ns, batch);
    forall z ensures Can(metric, n, dims, cmds + [cmd], clock, ns, Peak(z), names') {
      EnterPeak(metric, n, dims, cmds, cmd, clock, ns, names, batch, z);
    }
    if l.tallies[ns].loose {
      NoRisk(n, l, cmd, ns, IdsOf(batch));
      KnownIds(names, l.tallies[ns], KeysIn(l, ns), batch);
      CanNext(metric, n, dims, cmds, cmd, clock, ns, Fallen, names, []);
    }
    assert l'.tallies[ns].loose ==> Can(metric, n, dims, cmds + [cmd], clock, ns, Fallen, names');
  }

  lemma EnteredOrdered(names: Names, l: Ledger, ns: string, batch: seq<BatchEntry>)
    requires ns in l.tallies && Ordered(names, l.tallies[ns], KeysIn(l, ns)) && "" !in IdsOf(batch)
    ensures var l' := Enters(l, ns, IdsOf(batch));
      ns in l'.tallies && Ordered(NamedAll(names, batch, |batch|), l'.tallies[ns], KeysIn(l', ns))
  {
    hide Ordered, NamedAll, IdsOf;
    NamedAllOrdered(names, l.tallies[ns], KeysIn(l, ns), batch, |batch|);
    assert batch[..|batch|] == batch;
  }

  lemma EnteredTally(l: Ledger, ns: string, ids: set<string>)
    ensures var l' := Enters(l, ns, ids);
      && l'.tallies.Keys == l.tallies.Keys && KeysIn(l', ns) == KeysIn(l, ns) + ids
      && (ns in l.tallies ==>
            l'.tallies[ns] == Tally(l.tallies[ns].nodes + |ids - KeysIn(l, ns)|, l.tallies[ns].loose))
  {
  }

  lemma NoRisk(n: Numerals, l: Ledger, cmd: Command, ns: string, ids: set<string>)
    requires !Risks(n, l, cmd) && Stored(n, cmd) == Some((ns, ids)) && ns in l.tallies && l.tallies[ns].loose
    ensures ids <= KeysIn(l, ns)
  {
  }

  /** Every key can be made the high one, those that the batch brings too. */
  lemma EnterPeak(metric: G.Metric, n: Numerals, dims: Dims, cmds: seq<Command>, cmd: Command, clock: nat -> Time,
                  ns: string, names: Names, batch: seq<BatchEntry>, z: string)
    requires AllFine(n, dims, cmds) && Fine(n, dims, cmd) && Family(metric, n, dims, cmds, clock, ns, names)
    requires EffectOf(n, Book(n, cmds), cmd) == Enter(ns, batch) && ns in Book(n, cmds).tallies
    ensures Can(metric, n, dims, cmds + [cmd], clock, ns, Peak(z), NamedAll(names, batch, |batch|))
  {
    hide Can, Fine, EffectOf, Ordered, Execute, Tallied, NamedAll, Book;
    if z !in names.ids {
      FlatIsPeak(metric, n, dims, cmds, clock, ns, names, z);
    }
    CanNext(metric, n, dims, cmds, cmd, clock, ns, Peak(z), names, []);
  }

  lemma KnownIds(names: Names, t: Tally, keys: set<string>, batch: seq<BatchEntry>)
    requires Ordered(names, t, keys) && IdsOf(batch) <= keys
    ensures forall i :: 0 <= i < |batch| ==> batch[i].id in names.ids
  {
    forall i | 0 <= i < |batch| ensures batch[i].id in names.ids {
      IdIn(batch, i);
    }
  }

  lemma TakeFamily(metric: G.Metric, n: Numerals, dims: Dims, cmds: seq<Command>, cmd: Command, clock: nat -> Time,
                   ns: string, names: Names, id: string) returns (names': Names)
    requires AllFine(n, dims, cmds) && Fine(n, dims, cmd) && Family(metric, n, dims, cmds, clock, ns, names)
    requires EffectOf(n, Book(n, cmds), cmd) == Take(ns, id)
    ensures Family(metric, n, dims, cmds + [cmd], clock, ns, names')
  {
    hide Can, Fine, EffectOf, Ordered, Execute, Tallied, Moves;
    var l, eff := Book(n, cmds), Take(ns, id);
    var l' := Book(n, cmds + [cmd]);
    BookNext(n, cmds, cmd);
    FineIsMutative(n, dims, cmd);
    EffectTallies(n, l, cmd);
    CanNext(metric, n, dims, cmds, cmd, clock, ns, Flat, names, []);
    names' := NamesThen(names, ns, ns in l.tallies, eff, []);
    if ns in l.tallies {
      var t, keys := l.tallies[ns], KeysIn(l, ns);
      OrderedKeys(names, t, keys);
      forall z | z in names.ids && z != id ensures Can(metric, n, dims, cmds + [cmd], clock, ns, Peak(z), names') {
        CanNext(metric, n, dims, cmds, cmd, clock, ns, Peak(z), names, []);
      }
      if id in keys {
        TakenOrdered(names, t, keys, id);
        if Moves(names, id) {
          CanNext(metric, n, dims, cmds, cmd, clock, ns, Peak(id), names, []);
        } else if t.loose {
          CanNext(metric, n, dims, cmds, cmd, clock, ns, Fallen, names, []);
        }
      } else {
        assert names.ids - {id} == names.ids && names' == names;
        if t.loose {
          CanNext(metric, n, dims, cmds, cmd, clock, ns, Fallen, names, []);
        }
      }
    }
  }

  lemma OrderedKeys(names: Names, t: Tally, keys: set<string>)
    requires Ordered(names, t, keys)
    ensures names.ids.Keys == keys
  {
  }

  lemma MakeFamily(metric: G.Metric, n: Numerals, dims: Dims, cmds: seq<Command>, cmd: Command, clock: nat -> Time,
                   ns: string, names: Names, p: Params, listed: seq<BatchEntry>) returns (names': Names)
    requires AllFine(n, dims, cmds) && Fine(n, dims, cmd) && Family(metric, n, dims, cmds, clock, ns, names)
    requires EffectOf(n, Book(n, cmds), cmd) == Make(ns, p)
    requires Lists(listed, Loaded(After(n, AnswerEvents(cmds, clock)).vectors, clock(|cmds|), ns))
    ensures Family(metric, n, dims, cmds + [cmd], clock, ns, names')
  {
    hide Can, Fine, EffectOf, Ordered, Execute, Tallied, Lists, Loaded, IdsOf, Tracks, Sized, NamedAll, Book, After,
      AllFine;
    var l, l' := Book(n, cmds), Book(n, cmds + [cmd]);
    BookNext(n, cmds, cmd);
    FineIsMutative(n, dims, cmd);
    EffectTallies(n, l, cmd);
    CanNext(metric, n, dims, cmds, cmd, clock, ns, Flat, names, listed);
    names' := NamedAll(NO_NAMES, listed, |listed|);
    MadeOrdered(n, dims, cmds, clock, ns, listed);
    forall z ensures Can(metric, n, dims, cmds + [cmd], clock, ns, Peak(z), names') {
      MakePeak(metric, n, dims, cmds, cmd, clock, ns, names, p, listed, z);
    }
    assert KeysIn(l', ns) == KeysIn(l, ns);
  }

  lemma MadeOrdered(n: Numerals, dims: Dims, cmds: seq<Command>, clock: nat -> Time, ns: string,
                    listed: seq<BatchEntry>)
    requires AllFine(n, dims, cmds)
    requires Lists(listed, Loaded(After(n, AnswerEvents(cmds, clock)).vectors, clock(|cmds|), ns))
    ensures var keys := KeysIn(Book(n, cmds), ns);
      Ordered(NamedAll(NO_NAMES, listed, |listed|), Tally(|keys|, false), keys)
  {
    hide Ordered, Lists, Loaded, IdsOf, Tracks, Sized, NamedAll, Book, After, AllFine;
    var w, l := After(n, AnswerEvents(cmds, clock)), Book(n, cmds);
    AnswersTrack(n, dims, cmds, clock);
    ListedIds(listed, Loaded(w.vectors, clock(|cmds|), ns));
    LoadedKeys(w, clock(|cmds|), l, ns);
    ListedOrdered(listed, KeysIn(l, ns));
  }

  lemma ListedOrdered(listed: seq<BatchEntry>, keys: set<string>)
    requires IdsOf(listed) == keys && "" !in keys
    ensures Ordered(NamedAll(NO_NAMES, listed, |listed|), Tally(|keys|, false), keys)
  {
    hide Ordered, NamedAll, IdsOf;
    NothingOrdered();
    NamedAllOrdered(NO_NAMES, Tally(0, false), {}, listed, |listed|);
    assert listed[..|listed|] == listed;
    assert keys - {} == keys && {} + keys == keys;
  }

  lemma MakePeak(metric: G.Metric, n: Numerals, dims: Dims, cmds: seq<Command>, cmd: Command, clock: nat -> Time,
                 ns: string, names: Names, p: Params, listed: seq<BatchEntry>, z: string)
    requires AllFine(n, dims, cmds) && Fine(n, dims, cmd) && Can(metric, n, dims, cmds, clock, ns, Flat, names)
    requires EffectOf(n, Book(n, cmds), cmd) == Make(ns, p) && ns !in Book(n, cmds).tallies
    requires Lists(listed, Loaded(After(n, AnswerEvents(cmds, clock)).vectors, clock(|cmds|), ns))
    ensures Can(metric, n, dims, cmds + [cmd], clock, ns, Peak(z), NamedAll(NO_NAMES, listed, |listed|))
  {
    hide Can, Fine, EffectOf, Execute, Tallied, Lists, Loaded, NamedAll, Book, After, AllFine;
    FlatIsPeak(metric, n, dims, cmds, clock, ns, names, z);
    CanNext(metric, n, dims, cmds, cmd, clock, ns, Peak(z), names, listed);
  }

  lemma LoadedKeys(w: World, now: Time, l: Ledger, ns: string)
    requires Tracks(w, l)
    ensures Loaded(w.vectors, now, ns).Keys == KeysIn(l, ns) && "" !in KeysIn(l, ns)
  {
    hide NoTtls, StoredKeys, Loaded;
    AllLoadedKeys(w, now, ns);
    assert StoredKeys(w, ns) == KeysIn(l, ns);
  }

  lemma NothingOrdered()
    ensures Ordered(NO_NAMES, Tally(0, false), {})
  {
  }

  /** There is a listing of every map. */
  lemma {:induction false} ListingOf(all: map<string, Indexed>) returns (listed: seq<BatchEntry>)
    ensures Lists(listed, all)
    decreases |all|
  {
    listed := [];
    if all != map[] {
      assert |all.Keys| > 0;
      var id := G.PickOne(all.Keys);
      var rest := all - {id};
      assert |rest.Keys| < |all.Keys| by {
        assert rest.Keys == all.Keys - {id};
      }
      var front := ListingOf(rest);
      listed := front + [BatchEntry(id, all[id].vector, all[id].metadata)];
      ListsMore(front, rest, all, id);
    }
  }

  lemma ListsMore(front: seq<BatchEntry>, rest: map<string, Indexed>, all: map<string, Indexed>, id: string)
    requires Lists(front, rest) && id in all && rest == all - {id}
    ensures Lists(front + [BatchEntry(id, all[id].vector, all[id].metadata)], all)
  {
    var listed := front + [BatchEntry(id, all[id].vector, all[id].metadata)];
    forall k | k in all ensures exists i :: 0 <= i < |listed| && listed[i].id == k {
      if k == id {
        assert listed[|front|].id == id;
      } else {
        assert k in rest;
        var i :| 0 <= i < |front| && front[i].id == k;
        assert listed[i].id == k;
      }
    }
  }

  /** One command more that takes no risk. */
  lemma FamilyNext(metric: G.Metric, n: Numerals, dims: Dims, cmds: seq<Command>, cmd: Command, clock: nat -> Time,
                   ns: string, names: Names) returns (names': Names)
    requires AllFine(n, dims, cmds) && Fine(n, dims, cmd) && Family(metric, n, dims, cmds, clock, ns, names)
    requires !Risks(n, Book(n, cmds), cmd)
    ensures Family(metric, n, dims, cmds + [cmd], clock, ns, names')
  {
    hide Family, Fine, EffectOf, Risks, Lists, Loaded, Execute, IdsOf;
    var l := Book(n, cmds);
    var eff := EffectOf(n, l, cmd);
    var listed := [];
    if eff.Make? {
      listed := ListingOf(Loaded(After(n, AnswerEvents(cmds, clock)).vectors, clock(|cmds|), eff.ns));
    }
    if eff.Enter? && eff.ns == ns {
      EnterIds(n, dims, l, cmd);
      names' := EnterFamily(metric, n, dims, cmds, cmd, clock, ns, names, eff.batch);
    } else if eff.Take? && eff.ns == ns {
      names' := TakeFamily(metric, n, dims, cmds, cmd, clock, ns, names, eff.id);
    } else if eff.Make? && eff.ns == ns {
      names' := MakeFamily(metric, n, dims, cmds, cmd, clock, ns, names, eff.p, listed);
    } else {
      SameFamily(metric, n, dims, cmds, cmd, clock, ns, names, listed);
      names' := names;
    }
  }

  lemma EnterIds(n: Numerals, dims: Dims, l: Ledger, cmd: Command)
    requires Fine(n, dims, cmd) && EffectOf(n, l, cmd).Enter?
    ensures "" !in IdsOf(EffectOf(n, l, cmd).batch)
  {
    hide ParseVSet, Decode, ToUpper, CreateParams, Atoi, IsMutative, TtlFree, KeepsDims, KeepsParams;
    if cmd.name == "VMSET" {
      DecodedIdsInArgs(n, cmd.args);
    } else {
      ParsedId(n, cmd.args);
      OneId(EffectOf(n, l, cmd).batch);
      assert cmd.args[1] in cmd.args;
    }
  }

  lemma ParsedId(n: Numerals, args: seq<string>)
    ensures var a := ParseVSet(n, args); a.Some? ==> |args| >= 4 && a.value.id == args[1]
  {
    hide ReadFloats, MapOf, ServerSpec.PairsOf, Atoi, MetaArgs, Seconds, FirstWord;
  }

  lemma NothingCalm(metric: G.Metric, n: Numerals, dims: Dims, clock: nat -> Time, ns: string)
    ensures Family(metric, n, dims, [], clock, ns, NO_NAMES)
  {
    var none: G.Trail<Indexes> := G.Start;
    assert AnswerEvents([], clock) == [];
    assert ServedRuns(metric, n, [], none);
  }

  /** On a log that has taken no risk yet some draws lead to every mode. */
  lemma {:induction false} RiskFreeFamily(metric: G.Metric, n: Numerals, dims: Dims, cmds: seq<Command>,
                                          clock: nat -> Time, ns: string) returns (names: Names)
    requires AllFine(n, dims, cmds) && !Risky(n, cmds)
    ensures Family(metric, n, dims, cmds, clock, ns, names)
  {
    hide Family, Fine, Risks, Risky, AllFine, Book, Tallied;
    if cmds == [] {
      NothingCalm(metric, n, dims, clock, ns);
      names := NO_NAMES;
    } else {
      var front, last := cmds[..|cmds| - 1], cmds[|cmds| - 1];
      assert cmds == front + [last];
      BookNext(n, front, last);
      FineParts(n, dims, front, last);
      var before := RiskFreeFamily(metric, n, dims, front, clock, ns);
      names := FamilyNext(metric, n, dims, front, last, clock, ns, before);
    }
  }

  lemma FineParts(n: Numerals, dims: Dims, front: seq<Command>, last: Command)
    requires AllFine(n, dims, front + [last])
    ensures AllFine(n, dims, front) && Fine(n, dims, last)
  {
    hide Fine;
    var cmds := front + [last];
    assert cmds[|front|] == last && forall k :: 0 <= k < |front| ==> cmds[k] == front[k];
  }
}
