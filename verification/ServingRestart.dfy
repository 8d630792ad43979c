/** When a server can be restarted from its log: exactly when the log takes no risk, whatever levels
    and orders the replay draws. */
module ServingRestart {
  import opened Text
  import opened Decimal
  import opened CommandText
  import opened Aof
  import opened Vmset
  import opened StoreSpec
  import opened ServerSpec
  import opened Agreement
  import opened Replay
  import opened HnswServed
  import opened Serving
  import opened ServingRuns
  import opened ServingLedger
  import opened ServingReplay
  import opened ServingDraws
  import opened ServingRisk
  import H = HnswSpec
  import G = HnswGraph
  import R = HnswRuns
  import I = HnswInvariant

  // ---------- a replay dies exactly on a log that takes a risk ----------

  lemma FirstNew(batch: seq<BatchEntry>, ids: map<string, G.NodeId>) returns (j: nat)
    requires !(IdsOf(batch) <= ids.Keys)
    ensures j < |batch| && batch[j].id !in ids && forall i :: 0 <= i < j ==> batch[i].id in ids
  {
    var id :| id in IdsOf(batch) && id !in ids;
    var last :| 0 <= last < |batch| && batch[last].id == id;
    j := 0;
    while batch[j].id in ids
      invariant j <= last && forall i :: 0 <= i < j ==> batch[i].id in ids
      decreases last - j
    {
      j := j + 1;
    }
  }

  /** The command that takes the risk dies on a fallen index. */
  lemma RiskDies(metric: G.Metric, n: Numerals, dims: Dims, w: World, now: Time, cmd: Command, l: Ledger,
                 served: Indexes, ns: string, names: Names) returns (fate: Fate, served': Indexes)
    requires Fine(n, dims, cmd) && Risks(n, l, cmd) && Stored(n, cmd).value.0 == ns
    requires Tracks(w, l) && Represents(served, w.indexes) && Calm(served, dims, ns, Fallen, names)
    ensures Serves(metric, n, w, now, true, cmd, fate, served, served')
    ensures Execute(n, w, now, true, cmd, fate).1.Silence?
  {
    hide Tracks, Represents, ParseVSet, Decode, ToUpper, KeepsParams, TtlFree, IsMutative, In, Finishes, IdsOf, KeysIn,
      Calm, Retallied;
    FineIsMutative(n, dims, cmd);
    EffectTallies(n, l, cmd);
    EffectIsFit(n, dims, l, cmd);
    CalmKeys(w, l, served, dims, ns, Fallen, names, ns);
    CalmNames(served, dims, ns, Fallen, names);
    var batch := BatchOfEffect(n, l, cmd, ns);
    var j := FirstNew(batch, served[ns].state.idMap);
    CalmAt(served, dims, ns, Fallen, names);
    var x';
    fate, x' := FallenDies(metric, served[ns], dims(ns), batch, j);
    served' := served[ns := x'];
    assert InsertsBatch(metric, served, ns, batch, fate, served');
    EnterIsSilent(n, w, now, cmd, l, ns, batch, fate);
  }

  lemma CalmAt(served: Indexes, dims: Dims, ns: string, mode: Mode, names: Names)
    requires Calm(served, dims, ns, mode, names) && ns in served
    ensures In(served[ns], dims(ns), mode)
  {
    hide In;
  }

  lemma BatchOfEffect(n: Numerals, l: Ledger, cmd: Command, ns: string) returns (batch: seq<BatchEntry>)
    requires Risks(n, l, cmd) && Stored(n, cmd).value.0 == ns
    ensures EffectOf(n, l, cmd) == Enter(ns, batch)
  {
    hide ParseVSet, Decode, ToUpper, IdsOf;
    batch := EffectOf(n, l, cmd).batch;
  }

  lemma EnterIsSilent(n: Numerals, w: World, now: Time, cmd: Command, l: Ledger, ns: string, batch: seq<BatchEntry>,
                      fate: Fate)
    requires ToUpper(cmd.name) == cmd.name && Stored(n, cmd).Some? && EffectOf(n, l, cmd) == Enter(ns, batch)
    requires ns in w.indexes && fate.Dies? && fate.k < |batch|
    ensures Execute(n, w, now, true, cmd, fate).1.Silence?
  {
    hide ParseVSet, Decode, ToUpper, PutAll, InsertAll, Put, Insert, IdsOf, NamespaceOf;
    if cmd.name == "VMSET" {
      DecodedDims(n, cmd.args);
      AllPut(NamespaceOf(w.vectors, cmd.args[0]), now, Atoi(cmd.args[1]).value, batch, |batch|);
    }
  }

  /** On a log that takes a risk some replay dies. */
  lemma {:induction false} SomeReplayDies(metric: G.Metric, n: Numerals, dims: Dims, cmds: seq<Command>,
                                          clock: nat -> Time) returns (events: seq<Event>, run: G.Trail<Indexes>)
    requires AllFine(n, dims, cmds) && Risky(n, cmds)
    ensures Replays(events, cmds, clock) && ServedRuns(metric, n, events, run) && !Answered(n, events)
  {
    hide Fine, Risks, Tallied, Family, Serves, Execute, AllFine, Calm, Tracks, Represents, Sized;
    var front, last := cmds[..|cmds| - 1], cmds[|cmds| - 1];
    assert cmds == front + [last];
    FineParts(n, dims, front, last);
    if Risky(n, front) {
      events, run := SomeReplayDies(metric, n, dims, front, clock);
    } else {
      var k := |front|;
      var fate, before, served' := LastDies(metric, n, dims, front, last, clock);
      events := AnswerEvents(front, clock) + [Request(clock(k), true, last, fate)];
      run := G.Then(before, served');
      assert events[..k] == AnswerEvents(front, clock);
    }
  }

  lemma LastDies(metric: G.Metric, n: Numerals, dims: Dims, front: seq<Command>, last: Command, clock: nat -> Time)
    returns (fate: Fate, before: G.Trail<Indexes>, served': Indexes)
    requires AllFine(n, dims, front) && Fine(n, dims, last) && !Risky(n, front) && Risks(n, Book(n, front), last)
    ensures var events, k := AnswerEvents(front, clock), |front|;
      && ServedRuns(metric, n, events, before)
      && Serves(metric, n, After(n, events), clock(k), true, last, fate, Current(before), served')
      && Execute(n, After(n, events), clock(k), true, last, fate).1.Silence?
  {
    hide Fine, Tallied, Serves, Execute, AllFine, Calm, Tracks, Represents, Sized, Risky, Book, After, Stored, Ordered;
    var events, l := AnswerEvents(front, clock), Book(n, front);
    var ns := Stored(n, last).value.0;
    var names := RiskFreeFamily(metric, n, dims, front, clock, ns);
    before :| ServedRuns(metric, n, events, before) && Calm(Current(before), dims, ns, Fallen, names);
    RunsRefine(metric, n, events, before);
    AnswersTrack(n, dims, front, clock);
    fate, served' := RiskDies(metric, n, dims, After(n, events), clock(|front|), last, l, Current(before), ns, names);
  }

  /** With one dimension for every namespace and sound parameters: some levels and orders make a
      replay of the log die if and only if, in the life of some index of the log, a VDEL takes a
      live key while the index has two nodes, and a new key is stored in it later. */
  lemma ReplayCanDieExactly(metric: G.Metric, n: Numerals, dims: Dims, cmds: seq<Command>, clock: nat -> Time)
    requires AllFine(n, dims, cmds)
    ensures (exists events, run ::
               Replays(events, cmds, clock) && ServedRuns(metric, n, events, run) && !Answered(n, events))
       <==> Risky(n, cmds)
  {
    hide AllFine, Replays, ServedRuns, Answered, Risky;
    if Risky(n, cmds) {
      var events, run := SomeReplayDies(metric, n, dims, cmds, clock);
    } else {
      forall events, run | Replays(events, cmds, clock) && ServedRuns(metric, n, events, run)
        ensures Answered(n, events)
      {
        RiskFreeReplays(metric, n, dims, cmds, clock, events, run);
      }
    }
  }

  // ---------- the start of the server from its file ----------

  function FatesOf(events: seq<Event>): nat -> Fate {
    (k: nat) => if k < |events| && events[k].Request? then events[k].fate else Answers
  }

  /** A replay that goes to the end of the log or to its first death. */
  ghost predicate Restarts(metric: G.Metric, n: Numerals, cmds: seq<Command>, clock: nat -> Time, events: seq<Event>,
                           run: G.Trail<Indexes>) {
    && Replays(events, cmds, clock) && ServedRuns(metric, n, events, run)
    && (|events| == |cmds| || !Answered(n, events))
  }

  ghost predicate AllLogged(cmds: seq<Command>) {
    forall k :: 0 <= k < |cmds| ==> IsMutative(cmds[k].name) && Loggable(cmds[k])
  }

  lemma {:induction false} RebuiltAt(n: Numerals, cmds: seq<Command>, clock: nat -> Time, events: seq<Event>, k: nat)
    requires AllLogged(cmds) && Replays(events, cmds, clock) && k <= |events|
    ensures Rebuilt(n, TextsOf(cmds[..k]), clock, FatesOf(events))
         == if Answered(n, events[..k]) then Some(After(n, events[..k])) else None
  {
    hide Execute, IsMutative, Loggable, Rebuilt, TextsOf;
    if k == 0 {
      NothingRebuilt(n, clock, FatesOf(events));
      assert cmds[..0] == [] && events[..0] == [];
    } else {
      RebuiltAt(n, cmds, clock, events, k - 1);
      assert cmds[..k] == cmds[..k - 1] + [cmds[k - 1]];
      assert events[..k][..k - 1] == events[..k - 1];
      RebuiltNext(n, cmds[..k - 1], cmds[k - 1], clock, FatesOf(events));
    }
  }

  lemma NothingRebuilt(n: Numerals, clock: nat -> Time, fates: nat -> Fate)
    ensures Rebuilt(n, TextsOf([]), clock, fates) == Some(EMPTY_WORLD)
  {
  }

  lemma {:induction false} NoneStays(n: Numerals, cmds: seq<Command>, clock: nat -> Time, fates: nat -> Fate, k: nat)
    requires AllLogged(cmds) && k <= |cmds| && Rebuilt(n, TextsOf(cmds[..k]), clock, fates) == None
    ensures Rebuilt(n, TextsOf(cmds), clock, fates) == None
    decreases |cmds| - k
  {
    hide Execute, IsMutative, Loggable, Rebuilt, TextsOf;
    if k == |cmds| {
      assert cmds[..k] == cmds;
    } else {
      assert cmds[..k + 1] == cmds[..k] + [cmds[k]];
      RebuiltNext(n, cmds[..k], cmds[k], clock, fates);
      NoneStays(n, cmds, clock, fates, k + 1);
    }
  }

  /** The server starts with what the replay leaves, or does not start if a handler dies in it. */
  lemma RebuiltIsReplay(metric: G.Metric, n: Numerals, cmds: seq<Command>, clock: nat -> Time, events: seq<Event>,
                        run: G.Trail<Indexes>)
    requires AllLogged(cmds) && Restarts(metric, n, cmds, clock, events, run)
    ensures Rebuilt(n, TextsOf(cmds), clock, FatesOf(events))
         == if Answered(n, events) then Some(After(n, events)) else None
  {
    hide Answered, Rebuilt, After, TextsOf, ServedRuns, IsMutative, Loggable;
    var k := |events|;
    RebuiltAt(n, cmds, clock, events, k);
    assert events[..k] == events;
    if !Answered(n, events) {
      NoneStays(n, cmds, clock, FatesOf(events), k);
    } else {
      assert cmds[..k] == cmds;
    }
  }

  /** What a tame run logs passes the same checks again. */
  lemma {:induction false} LogIsFine(n: Numerals, dims: Dims, events: seq<Event>, run: G.Trail<Indexes>)
    requires Tame(n, dims, events, run) && TtlFreeRun(events) && Replay.Parsed(events) && LogKeeps(n, events)
    ensures AllFine(n, dims, Log(n, events)) && AllLogged(Log(n, events))
  {
    hide Fine, Execute, Loggable, TtlFree, ToUpper, IsMutative, KeepsDims, KeepsParams, KeepsEntries, Next, Written;
    if events != [] {
      var front, e := events[..|events| - 1], events[|events| - 1];
      RunFront(n, events);
      LogIsFine(n, dims, front, run.before);
      var w, log := After(n, front), Log(n, front);
      WrittenHow(n, w, e);
      if Written(n, w, e) != [] {
        assert Log(n, events)[|log|] == e.cmd;
        LoggedIsFine(n, dims, w, e);
      }
    }
  }

  lemma WrittenHow(n: Numerals, w: World, e: Event)
    ensures Written(n, w, e) == [] ||
      (e.Request? && Written(n, w, e) == [e.cmd] && IsMutative(e.cmd.name)
       && !Execute(n, w, e.now, e.allowed, e.cmd, e.fate).1.Error?)
  {
    hide Execute, IsMutative;
  }

  lemma LoggedIsFine(n: Numerals, dims: Dims, w: World, e: Event)
    requires e.Request? && IsMutative(e.cmd.name) && ToUpper(e.cmd.name) == e.cmd.name && TtlFree(e.cmd)
    requires Loggable(e.cmd) && !Execute(n, w, e.now, e.allowed, e.cmd, e.fate).1.Error?
    requires e.allowed ==> KeepsDims(n, dims, e.cmd) && KeepsParams(e.cmd)
    ensures Fine(n, dims, e.cmd)
  {
    hide Execute, TtlFree, ToUpper, IsMutative, KeepsDims, KeepsParams;
    AllowedIn(n, w, e.now, e.allowed, e.cmd, e.fate);
    forall i | 0 <= i < |e.cmd.args| ensures e.cmd.args[i] != "" {
      assert Kept(e.cmd.args[i]);
    }
  }

  /** A tame run without TTLs, whose logged commands the log preserves, is rebuilt from its file by
      every replay if and only if its log takes no risk: the server starts, with the same data. */
  lemma TameRunsAreRebuiltExactly(metric: G.Metric, n: Numerals, dims: Dims, crc: Checksum, events: seq<Event>,
                                  run: G.Trail<Indexes>, clock: nat -> Time)
    requires ServedRuns(metric, n, events, run) && Tame(n, dims, events, run)
    requires TtlFreeRun(events) && Replay.Parsed(events) && LogKeeps(n, events)
    ensures var log := Log(n, events);
      (forall again, served :: Restarts(metric, n, log, clock, again, served) ==>
         var u := Rebuilt(n, Aof.Replay(crc, File(crc, TextsOf(log))), clock, FatesOf(again));
         u.Some? && Same(After(n, events), u.value))
      <==> !Risky(n, log)
  {
    hide Same, Rebuilt, Aof.Replay, File, Answered, Risky, AllFine, Log, After, TextsOf, ServedRuns, Tame, TtlFreeRun,
      Replay.Parsed, LogKeeps, Replays;
    var log := Log(n, events);
    TameRunsAreAnswered(metric, n, dims, events, run);
    LogIsFine(n, dims, events, run);
    FileIsReplayed(n, crc, events);
    if Risky(n, log) {
      var again, served := SomeReplayDies(metric, n, dims, log, clock);
      assert Restarts(metric, n, log, clock, again, served);
      RebuiltIsReplay(metric, n, log, clock, again, served);
    } else {
      forall again, served | Restarts(metric, n, log, clock, again, served)
        ensures var u := Rebuilt(n, TextsOf(log), clock, FatesOf(again)); u.Some? && Same(After(n, events), u.value)
      {
        RiskFreeReplays(metric, n, dims, log, clock, again, served);
        RebuiltIsReplay(metric, n, log, clock, again, served);
        LogIsReplayed(n, events, clock, FatesOf(again));
      }
    }
  }

  // ---------- every log can come from a tame run ----------

  lemma FlatKeepsEntry(x: Served, dim: nat, key: string)
    requires In(x, dim, Flat)
    ensures |x.state.reverseMap| == |x.state.graph| && R.KeepsEntry(x.state, key)
  {
    hide I.WellFormed, H.Deleted, R.KeepsEntry;
    var s := x.state;
    KeysMatch(s);
    LevelsAreGround(s);
    I.DeleteKeepsWellFormed(s, key);
    DeletedIsUniform(s, key, dim);
    LevelsAreGround(H.Deleted(s, key));
    R.DeleteKeepsEntryExactly(s, key);
  }

  lemma FlatKeepsEntries(served: Indexes, dims: Dims, names: Names, cmd: Command)
    requires Calm(served, dims, "", Flat, names)
    ensures KeepsEntries(served, cmd)
  {
    hide In, R.KeepsEntry, ToUpper;
    if |cmd.args| == 2 && cmd.args[0] in served {
      FlatKeepsEntry(served[cmd.args[0]], dims(cmd.args[0]), cmd.args[1]);
    }
  }

  lemma TameMore(n: Numerals, dims: Dims, events: seq<Event>, e: Event, run: G.Trail<Indexes>, served: Indexes)
    requires Tame(n, dims, events, run) && e.Request?
    requires KeepsDims(n, dims, e.cmd) && KeepsParams(e.cmd) && KeepsEntries(Current(run), e.cmd)
    ensures Tame(n, dims, events + [e], G.Then(run, served))
  {
    hide KeepsDims, KeepsParams, KeepsEntries;
    assert (events + [e])[..|events|] == events;
  }

  /** With all levels 0 the very commands of any log, a risky one too, are a tame run. */
  lemma {:induction false} EveryLogIsTame(metric: G.Metric, n: Numerals, dims: Dims, cmds: seq<Command>,
                                          clock: nat -> Time) returns (run: G.Trail<Indexes>, names: Names)
    requires AllFine(n, dims, cmds)
    ensures ServedRuns(metric, n, AnswerEvents(cmds, clock), run) && Tame(n, dims, AnswerEvents(cmds, clock), run)
    ensures Calm(Current(run), dims, "", Flat, names)
  {
    hide Fine, AllFine, Calm, Serves, Book, After, EffectOf, Lists, Loaded;
    if cmds == [] {
      run, names := G.Start, NO_NAMES;
      assert AnswerEvents([], clock) == [];
      NothingIsCalm(dims);
    } else {
      var k := |cmds| - 1;
      var front, last := cmds[..k], cmds[k];
      assert cmds == front + [last];
      FineParts(n, dims, front, last);
      var before, named := EveryLogIsTame(metric, n, dims, front, clock);
      var events, eff := AnswerEvents(front, clock), EffectOf(n, Book(n, front), last);
      var listed := [];
      if eff.Make? {
        listed := ListingOf(Loaded(After(n, events).vectors, clock(k), eff.ns));
      }
      var served' := RunNext(metric, n, dims, front, last, clock, "", Flat, named, listed, before);
      names := NamesThen(named, "", "" in Book(n, front).tallies, eff, listed);
      run := G.Then(before, served');
      AnswerEventsNext(front, last, clock);
      FlatKeepsEntries(Current(before), dims, named, last);
      FineKeeps(n, dims, last);
      TameMore(n, dims, events, Request(clock(k), true, last, Answers), before, served');
    }
  }

  lemma NothingIsCalm(dims: Dims)
    ensures Calm(map[], dims, "", Flat, NO_NAMES)
  {
  }

  lemma FineKeeps(n: Numerals, dims: Dims, cmd: Command)
    requires Fine(n, dims, cmd)
    ensures KeepsDims(n, dims, cmd) && KeepsParams(cmd)
  {
  }
}
