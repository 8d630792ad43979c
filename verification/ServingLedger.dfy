/** What can be told from a log alone: the keys that each command stores and removes, and how many
    nodes an index then has.  No level and no bulk-load order is needed for it. */
module ServingLedger {
  import opened Text
  import opened Decimal
  import opened CommandText
  import opened Vmset
  import opened StoreSpec
  import opened ServerSpec
  import opened Agreement
  import opened Replay
  import opened ServingRuns

  /** An index: its nodes, those of deleted keys too, and whether a key was deleted from it while
      it had at least two. */
  datatype Tally = Tally(nodes: nat, loose: bool)

  datatype Ledger = Ledger(keys: map<string, set<string>>, tallies: map<string, Tally>)

  const EMPTY_LEDGER := Ledger(map[], map[])

  function KeysIn(l: Ledger, ns: string): set<string> {
    if ns in l.keys then l.keys[ns] else {}
  }

  function IdsOf(batch: seq<BatchEntry>): set<string> {
    set i | 0 <= i < |batch| :: batch[i].id
  }

  /** The namespace and the ids that a command stores. */
  function Stored(n: Numerals, cmd: Command): Option<(string, set<string>)> {
    if ToUpper(cmd.name) == "VSET" then
      match ParseVSet(n, cmd.args)
      case None => None
      case Some(a) => Some((a.ns, {a.id}))
    else if ToUpper(cmd.name) == "VMSET" then
      match Decode(n, cmd.args)
      case Failed(_) => None
      case Entries(entries) => Some((cmd.args[0], IdsOf(BatchOf(entries))))
    else None
  }

  function Enters(l: Ledger, ns: string, ids: set<string>): Ledger {
    var t := l.tallies;
    Ledger(l.keys[ns := KeysIn(l, ns) + ids],
           if ns in t then t[ns := Tally(t[ns].nodes + |ids - KeysIn(l, ns)|, t[ns].loose)] else t)
  }

  function Leaves(l: Ledger, ns: string, id: string): Ledger {
    var t := l.tallies;
    if id !in KeysIn(l, ns) then l
    else
      Ledger(l.keys[ns := KeysIn(l, ns) - {id}],
             if ns in t then t[ns := Tally(t[ns].nodes, t[ns].loose || t[ns].nodes >= 2)] else t)
  }

  function Retallied(l: Ledger, args: seq<string>): Ledger
    requires |args| >= 2
  {
    var sub, ns := ToUpper(args[0]), args[1];
    if sub == "CREATE" && ns !in l.tallies && CreateParams(args, 2, Params(16, 200, 100)).Some? then
      l.(tallies := l.tallies[ns := Tally(|KeysIn(l, ns)|, false)])
    else if sub == "DROP" then l.(tallies := l.tallies - {ns})
    else l
  }

  function Tallied(n: Numerals, l: Ledger, cmd: Command): Ledger {
    var name, args, stored := ToUpper(cmd.name), cmd.args, Stored(n, cmd);
    if stored.Some? then Enters(l, stored.value.0, stored.value.1)
    else if name == "VDEL" && |args| == 2 then Leaves(l, args[0], args[1])
    else if name == "VINDEX" && |args| >= 2 then Retallied(l, args)
    else if name == "VNS" && |args| == 2 && ToUpper(args[0]) == "DROP" then
      Ledger(l.keys - {args[1]}, l.tallies - {args[1]})
    else l
  }

  /** A new key is stored in an index from which one was deleted while it had at least two nodes. */
  predicate Risks(n: Numerals, l: Ledger, cmd: Command) {
    var stored := Stored(n, cmd);
    && stored.Some? && stored.value.0 in l.tallies && l.tallies[stored.value.0].loose
    && !(stored.value.1 <= KeysIn(l, stored.value.0))
  }

  function Book(n: Numerals, cmds: seq<Command>): Ledger {
    if cmds == [] then EMPTY_LEDGER else Tallied(n, Book(n, cmds[..|cmds| - 1]), cmds[|cmds| - 1])
  }

  /** The condition on a log. */
  predicate Risky(n: Numerals, cmds: seq<Command>) {
    cmds != [] &&
    var front, last := cmds[..|cmds| - 1], cmds[|cmds| - 1];
    Risky(n, front) || Risks(n, Book(n, front), last)
  }

  /** A logged command of a run without TTLs, checked as a tame run checks it. */
  predicate Fine(n: Numerals, dims: Dims, cmd: Command) {
    && IsMutative(cmd.name) && ToUpper(cmd.name) == cmd.name && TtlFree(cmd)
    && "" !in cmd.args && KeepsDims(n, dims, cmd) && KeepsParams(cmd)
  }

  predicate AllFine(n: Numerals, dims: Dims, cmds: seq<Command>) {
    forall k :: 0 <= k < |cmds| ==> Fine(n, dims, cmds[k])
  }

  // ---------- the ledger and the server ----------

  function StoredKeys(w: World, ns: string): set<string> {
    NamespaceOf(w.vectors, ns).entries.Keys
  }

  /** The ledger knows the keys that are stored, and those are the keys that are indexed. */
  ghost predicate Tracks(w: World, l: Ledger) {
    && NoTtls(w) && w.indexes.Keys == l.tallies.Keys
    && (forall ns :: StoredKeys(w, ns) == KeysIn(l, ns) && "" !in KeysIn(l, ns))
    && (forall ns :: ns in w.indexes ==> w.indexes[ns].entries.Keys == KeysIn(l, ns))
  }

  lemma NothingTracked()
    ensures Tracks(EMPTY_WORLD, EMPTY_LEDGER)
  {
  }

  lemma {:induction false} BatchKeys(s: Namespace, now: Time, dim: int, batch: seq<BatchEntry>, k: nat)
    requires k <= |batch| && forall i :: 0 <= i < |batch| ==> |batch[i].vector| == dim
    ensures PutAll(s, now, dim, batch, k).1 == k
    ensures PutAll(s, now, dim, batch, k).0.entries.Keys == s.entries.Keys + IdsOf(batch[..k])
  {
    if k > 0 {
      BatchKeys(s, now, dim, batch, k - 1);
      OneMoreId(batch, k);
    } else {
      assert IdsOf(batch[..0]) == {};
    }
  }

  lemma OneMoreId(batch: seq<BatchEntry>, k: nat)
    requires 0 < k <= |batch|
    ensures IdsOf(batch[..k]) == IdsOf(batch[..k - 1]) + {batch[k - 1].id}
  {
    var a, b := batch[..k], batch[..k - 1];
    assert a == b + [batch[k - 1]];
    forall id | id in IdsOf(a) ensures id in IdsOf(b) + {batch[k - 1].id} {
      var i :| 0 <= i < k && a[i].id == id;
      assert i < k - 1 ==> b[i].id == id;
    }
    forall id | id in IdsOf(b) + {batch[k - 1].id} ensures id in IdsOf(a) {
      if id in IdsOf(b) {
        var i :| 0 <= i < k - 1 && b[i].id == id;
        assert a[i].id == id;
      } else {
        assert a[k - 1].id == id;
      }
    }
  }

  lemma {:induction false} IndexKeys(indexes: map<string, IndexState>, ns: string, batch: seq<BatchEntry>, k: nat)
    requires k <= |batch|
    ensures var i := InsertAll(indexes, ns, batch, k);
      && i.Keys == indexes.Keys
      && forall m :: m in indexes ==>
           i[m].entries.Keys == indexes[m].entries.Keys + if m == ns then IdsOf(batch[..k]) else {}
  {
    if k > 0 {
      IndexKeys(indexes, ns, batch, k - 1);
      OneMoreId(batch, k);
    } else {
      assert IdsOf(batch[..0]) == {};
    }
  }

  /** A batch stored and inserted whole is entered in the ledger. */
  lemma EntersTracks(w: World, now: Time, ns: string, dim: int, batch: seq<BatchEntry>, l: Ledger)
    requires Tracks(w, l) && (forall i :: 0 <= i < |batch| ==> |batch[i].vector| == dim) && "" !in IdsOf(batch)
    ensures var w' := World(w.kv, w.vectors[ns := PutAll(NamespaceOf(w.vectors, ns), now, dim, batch, |batch|).0],
                            InsertAll(w.indexes, ns, batch, |batch|));
      NoTtls(w') ==> Tracks(w', Enters(l, ns, IdsOf(batch)))
  {
    hide PutAll, InsertAll, IdsOf, NoTtls, Enters;
    BatchKeys(NamespaceOf(w.vectors, ns), now, dim, batch, |batch|);
    IndexKeys(w.indexes, ns, batch, |batch|);
    assert batch[..|batch|] == batch;
    assert StoredKeys(w, ns) == KeysIn(l, ns);
    var s' := PutAll(NamespaceOf(w.vectors, ns), now, dim, batch, |batch|).0;
    EnteredStore(w, ns, s', l, IdsOf(batch));
    EnteredIndexes(w, ns, InsertAll(w.indexes, ns, batch, |batch|), l, IdsOf(batch));
  }

  lemma EnteredStore(w: World, ns: string, s': Namespace, l: Ledger, ids: set<string>)
    requires forall m :: StoredKeys(w, m) == KeysIn(l, m) && "" !in KeysIn(l, m)
    requires s'.entries.Keys == KeysIn(l, ns) + ids && "" !in ids
    ensures var w', l' := w.(vectors := w.vectors[ns := s']), Enters(l, ns, ids);
      forall m :: StoredKeys(w', m) == KeysIn(l', m) && "" !in KeysIn(l', m)
  {
    var w', l' := w.(vectors := w.vectors[ns := s']), Enters(l, ns, ids);
    forall m ensures StoredKeys(w', m) == KeysIn(l', m) && "" !in KeysIn(l', m) {
      assert StoredKeys(w, m) == KeysIn(l, m) && "" !in KeysIn(l, m);
    }
  }

  lemma EnteredIndexes(w: World, ns: string, i: map<string, IndexState>, l: Ledger, ids: set<string>)
    requires w.indexes.Keys == l.tallies.Keys
    requires forall m :: m in w.indexes ==> w.indexes[m].entries.Keys == KeysIn(l, m)
    requires i.Keys == w.indexes.Keys
    requires forall m :: m in i ==> i[m].entries.Keys == w.indexes[m].entries.Keys + if m == ns then ids else {}
    ensures var l' := Enters(l, ns, ids);
      i.Keys == l'.tallies.Keys && forall m :: m in i ==> i[m].entries.Keys == KeysIn(l', m)
  {
  }

  lemma DecodedIdsInArgs(n: Numerals, args: seq<string>)
    requires Decode(n, args).Entries? && "" !in args
    ensures "" !in IdsOf(BatchOf(Decode(n, args).entries))
  {
    hide ReadAll, Atoi;
    IdsFromArgs(n, args, Atoi(args[1]).value, Atoi(args[2]).value, 3, []);
  }

  lemma {:induction false} IdsFromArgs(n: Numerals, args: seq<string>, dim: nat, count: nat, i: nat,
                                       entries: seq<Entry>)
    requires i <= |args| && "" !in args && forall k :: 0 <= k < |entries| ==> entries[k].id != ""
    ensures var r := ReadAll(n, args, dim, count, i, entries);
      r.Entries? ==> forall k :: 0 <= k < |r.entries| ==> r.entries[k].id != ""
    decreases |args| - i
  {
    hide ReadMeta, ReadFloats;
    if |entries| < count && i < |args| {
      var r := ReadEntry(n, args, dim, |entries| + 1 < count, i);
      if r.Got? {
        assert args[i] in args;
        IdsFromArgs(n, args, dim, count, r.next, entries + [r.entry]);
      }
    }
  }

  lemma TakenTracks(w: World, now: Time, args: seq<string>, l: Ledger)
    requires Tracks(w, l)
    ensures var w' := HandleVDel(w, args, Answers).0;
      NoTtls(w') ==> Tracks(w', if |args| == 2 then Leaves(l, args[0], args[1]) else l)
  {
    hide NoTtls;
    if |args| == 2 {
      var ns, id := args[0], args[1];
      var w', l' := HandleVDel(w, args, Answers).0, Leaves(l, ns, id);
      forall m ensures StoredKeys(w', m) == KeysIn(l', m) && "" !in KeysIn(l', m) {
        assert StoredKeys(w, m) == KeysIn(l, m) && StoredKeys(w, ns) == KeysIn(l, ns);
        assert "" !in KeysIn(l, m);
      }
      forall m | m in w'.indexes ensures w'.indexes[m].entries.Keys == KeysIn(l', m) {
        assert w.indexes[m].entries.Keys == KeysIn(l, m);
        assert m == ns ==> w'.indexes[m].entries.Keys == w.indexes[m].entries.Keys - {id};
      }
    }
  }

  lemma IndexedTracks(w: World, now: Time, args: seq<string>, l: Ledger)
    requires Tracks(w, l)
    ensures var w' := HandleVIndex(w, now, args, Answers).0;
      NoTtls(w') ==> Tracks(w', if |args| >= 2 then Retallied(l, args) else l)
  {
    hide NoTtls, StoredKeys, Retallied, ToUpper, HandleCreate, HandleSetEf;
    if |args| >= 2 {
      hide HandleVIndex;
      var w', l' := HandleVIndex(w, now, args, Answers).0, Retallied(l, args);
      VIndexKeepsVectors(w, now, args, Answers);
      IndexesKeys(w, now, args, l);
      forall m ensures StoredKeys(w', m) == KeysIn(l', m) && "" !in KeysIn(l', m) {
        SameStoredKeys(w, w', m);
        assert StoredKeys(w, m) == KeysIn(l, m) && "" !in KeysIn(l, m);
      }
    }
  }

  /** There are the indexes that the ledger knows, and they hold the keys that it knows. */
  ghost predicate Matches(i: map<string, IndexState>, l: Ledger) {
    i.Keys == l.tallies.Keys && forall m :: m in i ==> i[m].entries.Keys == KeysIn(l, m)
  }

  lemma DropMatches(i: map<string, IndexState>, l: Ledger, ns: string)
    requires Matches(i, l)
    ensures Matches(i - {ns}, l.(tallies := l.tallies - {ns}))
  {
    forall m | m in i - {ns} ensures (i - {ns})[m].entries.Keys == KeysIn(l.(tallies := l.tallies - {ns}), m) {
      assert m in i;
    }
  }

  lemma CreateMatches(i: map<string, IndexState>, i': map<string, IndexState>, l: Ledger, ns: string, t: Tally)
    requires Matches(i, l) && i'.Keys == i.Keys + {ns} && i'[ns].entries.Keys == KeysIn(l, ns)
    requires forall m :: m in i && m != ns ==> i'[m] == i[m]
    ensures Matches(i', l.(tallies := l.tallies[ns := t]))
  {
  }

  lemma EntriesMatch(i: map<string, IndexState>, i': map<string, IndexState>, l: Ledger)
    requires Matches(i, l) && i'.Keys == i.Keys && forall m :: m in i' ==> i'[m].entries == i[m].entries
    ensures Matches(i', l)
  {
  }

  /** VINDEX changes which indexes there are, and a new one holds what is stored. */
  lemma IndexesKeys(w: World, now: Time, args: seq<string>, l: Ledger)
    requires NoTtls(w) && Matches(w.indexes, l) && |args| >= 2 && StoredKeys(w, args[1]) == KeysIn(l, args[1])
    ensures var i, l' := HandleVIndex(w, now, args, Answers).0.indexes, Retallied(l, args);
      l'.keys == l.keys && Matches(i, l')
  {
    hide HandleCreate, HandleSetEf, ToUpper, NoTtls, StoredKeys, CreateParams, KeysIn;
    var sub, ns, i := ToUpper(args[0]), args[1], HandleVIndex(w, now, args, Answers).0.indexes;
    if sub == "CREATE" {
      CreateKeys(w, now, args, l);
      if i != w.indexes {
        CreateMatches(w.indexes, i, l, ns, Tally(|KeysIn(l, ns)|, false));
      }
    } else if sub == "SET_EF" {
      SetEfKeys(w, args);
      EntriesMatch(w.indexes, i, l);
    } else if sub == "DROP" {
      DropMatches(w.indexes, l, ns);
      assert ns !in w.indexes ==> w.indexes - {ns} == w.indexes;
    }
  }

  lemma CreateKeys(w: World, now: Time, args: seq<string>, l: Ledger)
    requires NoTtls(w) && w.indexes.Keys == l.tallies.Keys && |args| >= 2
    requires StoredKeys(w, args[1]) == KeysIn(l, args[1])
    ensures var i, ns := HandleCreate(w, now, args, Answers).0.indexes, args[1];
      if ns !in l.tallies && CreateParams(args, 2, Params(16, 200, 100)).Some? then
        && i.Keys == w.indexes.Keys + {ns} && i[ns].entries.Keys == KeysIn(l, ns)
        && forall m :: m in w.indexes ==> i[m] == w.indexes[m]
      else i == w.indexes
  {
    hide CreateParams, NoTtls, Loaded, StoredKeys;
    AllLoadedKeys(w, now, args[1]);
  }

  lemma SetEfKeys(w: World, args: seq<string>)
    requires |args| >= 2
    ensures var i := HandleSetEf(w, args, Answers).0.indexes;
      i.Keys == w.indexes.Keys && forall m :: m in i ==> i[m].entries == w.indexes[m].entries
  {
    hide Atoi;
  }

  lemma SameStoredKeys(w: World, w': World, ns: string)
    requires w'.vectors == w.vectors
    ensures StoredKeys(w', ns) == StoredKeys(w, ns)
  {
  }

  lemma AllLoadedKeys(w: World, now: Time, ns: string)
    requires NoTtls(w)
    ensures Loaded(w.vectors, now, ns).Keys == StoredKeys(w, ns)
  {
  }

  lemma DroppedTracks(w: World, args: seq<string>, l: Ledger)
    requires Tracks(w, l)
    ensures var w' := HandleVNS(w, args).0;
      var drop := |args| == 2 && ToUpper(args[0]) == "DROP";
      NoTtls(w') ==> Tracks(w', if drop then Ledger(l.keys - {args[1]}, l.tallies - {args[1]}) else l)
  {
    hide ToUpper, NoTtls;
    if |args| == 2 && ToUpper(args[0]) == "DROP" {
      var w', l' := HandleVNS(w, args).0, Ledger(l.keys - {args[1]}, l.tallies - {args[1]});
      forall m ensures StoredKeys(w', m) == KeysIn(l', m) && "" !in KeysIn(l', m) {
        assert StoredKeys(w, m) == KeysIn(l, m) && "" !in KeysIn(l, m);
      }
    }
  }

  lemma StoredTracks(n: Numerals, w: World, now: Time, cmd: Command, l: Ledger)
    requires Tracks(w, l) && Stored(n, cmd).Some? && "" !in cmd.args && ToUpper(cmd.name) == cmd.name && TtlFree(cmd)
    ensures var w', s := Execute(n, w, now, true, cmd, Answers).0, Stored(n, cmd).value;
      NoTtls(w') ==> Tracks(w', Enters(l, s.0, s.1))
  {
    hide ParseVSet, Decode, PutAll, InsertAll, NoTtls, Put, Insert, Tracks;
    var args := cmd.args;
    if cmd.name == "VSET" {
      OneTracks(n, w, now, args, l);
    } else {
      DecodedDims(n, args);
      DecodedIdsInArgs(n, args);
      var batch := BatchOf(Decode(n, args).entries);
      var dim := Atoi(args[1]).value;
      AllPut(NamespaceOf(w.vectors, args[0]), now, dim, batch, |batch|);
      EntersTracks(w, now, args[0], dim, batch, l);
    }
  }

  lemma NoExNoTtl(n: Numerals, args: seq<string>)
    requires ParseVSet(n, args).Some? && NoEx(args)
    ensures ParseVSet(n, args).value.ttl == 0
  {
    hide ReadFloats, MapOf, ServerSpec.PairsOf, Atoi, MetaArgs, Seconds, FirstWord;
  }

  lemma OneTracks(n: Numerals, w: World, now: Time, args: seq<string>, l: Ledger)
    requires Tracks(w, l) && ParseVSet(n, args).Some? && "" !in args && NoEx(args)
    ensures var w', a := HandleVSet(n, w, now, args, Answers).0, ParseVSet(n, args).value;
      NoTtls(w') ==> Tracks(w', Enters(l, a.ns, {a.id}))
  {
    hide ReadFloats, MapOf, ServerSpec.PairsOf, NoTtls, Tracks, Atoi, MetaArgs, Seconds;
    var a := ParseVSet(n, args).value;
    assert a.id == args[1] && args[1] in args;
    NoExNoTtl(n, args);
    var batch := [BatchEntry(a.id, a.vector, a.metadata)];
    assert batch[0].id in IdsOf(batch) && IdsOf(batch) == {a.id};
    var s := NamespaceOf(w.vectors, a.ns);
    assert PutAll(s, now, |a.vector|, batch, 0) == (s, 0);
    assert PutAll(s, now, |a.vector|, batch, 1).0 == Put(s, now, a.id, a.vector, a.metadata, 0);
    assert InsertAll(w.indexes, a.ns, batch, 0) == w.indexes;
    assert InsertAll(w.indexes, a.ns, batch, 1) == Insert(w.indexes, a.ns, a.id, a.vector, a.metadata);
    EntersTracks(w, now, a.ns, |a.vector|, batch, l);
  }

  /** A command whose handler comes back does to the keys what the ledger says. */
  lemma TalliedTracks(n: Numerals, dims: Dims, w: World, now: Time, cmd: Command, l: Ledger)
    requires Tracks(w, l) && Fine(n, dims, cmd)
    ensures Tracks(Execute(n, w, now, true, cmd, Answers).0, Tallied(n, l, cmd))
  {
    hide Tracks, ToUpper, KeepsDims, KeepsParams, TtlFree, HandleSet, HandleGet, HandleDel, HandleExpire, HandleTTL,
      HandleVCount, HandleVGet, HandleVExpire, HandleVSimilarity, HandleVSet, HandleVMSet, HandleVDel, HandleVIndex,
      HandleVNS, IsMutative, Enters, Leaves, Retallied;
    var name, args := cmd.name, cmd.args;
    var w' := Execute(n, w, now, true, cmd, Answers).0;
    StaysTtlFree(n, w, now, cmd, l);
    if Stored(n, cmd).Some? {
      StoredTracks(n, w, now, cmd, l);
    } else if name == "VDEL" {
      TakenTracks(w, now, args, l);
    } else if name == "VINDEX" {
      IndexedTracks(w, now, args, l);
    } else if name == "VNS" {
      DroppedTracks(w, args, l);
    } else {
      OtherTracks(n, w, now, cmd, l);
    }
  }

  lemma StaysTtlFree(n: Numerals, w: World, now: Time, cmd: Command, l: Ledger)
    requires Tracks(w, l) && TtlFree(cmd)
    ensures NoTtls(Execute(n, w, now, true, cmd, Answers).0)
  {
    hide TtlFree, Execute, Same, StoredKeys;
    SameToItself(w);
    ExecuteSame(n, w, w, now, now, cmd);
    SameHasNoTtls(Execute(n, w, now, true, cmd, Answers).0, Execute(n, w, now, true, cmd, Answers).0);
  }

  /** The other logged commands touch no vectors. */
  lemma OtherTracks(n: Numerals, w: World, now: Time, cmd: Command, l: Ledger)
    requires Tracks(w, l) && IsMutative(cmd.name) && ToUpper(cmd.name) == cmd.name && TtlFree(cmd)
    requires Stored(n, cmd) == None && cmd.name !in ["VDEL", "VINDEX", "VNS"]
    requires NoTtls(Execute(n, w, now, true, cmd, Answers).0)
    ensures Tracks(Execute(n, w, now, true, cmd, Answers).0, l)
  {
    hide ToUpper, IsMutative, NoTtls, StoredKeys, Execute, ParseVSet, Decode, Tracks;
    MutativeVectors(cmd);
    var w' := Execute(n, w, now, true, cmd, Answers).0;
    if !TouchesVectors(cmd.name) {
      OthersLeaveVectors(n, w, now, true, cmd, Answers);
    } else {
      NothingStored(n, w, now, cmd);
    }
    SameVectorsTrack(w, w', l);
  }

  lemma MutativeVectors(cmd: Command)
    requires IsMutative(cmd.name) && ToUpper(cmd.name) == cmd.name && TtlFree(cmd)
    requires cmd.name !in ["VDEL", "VINDEX", "VNS"]
    ensures TouchesVectors(cmd.name) ==> cmd.name == "VSET" || cmd.name == "VMSET"
  {
    hide ToUpper;
    var k :| 0 <= k < |MUTATIVE| && MUTATIVE[k] == cmd.name;
  }

  lemma NothingStored(n: Numerals, w: World, now: Time, cmd: Command)
    requires Stored(n, cmd) == None && ToUpper(cmd.name) == cmd.name && (cmd.name == "VSET" || cmd.name == "VMSET")
    ensures Execute(n, w, now, true, cmd, Answers).0 == w
  {
    hide ParseVSet, Decode;
  }

  lemma SameVectorsTrack(w: World, w': World, l: Ledger)
    requires Tracks(w, l) && NoTtls(w') && w'.vectors == w.vectors && w'.indexes == w.indexes
    ensures Tracks(w', l)
  {
    forall ns ensures StoredKeys(w', ns) == KeysIn(l, ns) && "" !in KeysIn(l, ns) {
      assert StoredKeys(w, ns) == KeysIn(l, ns);
    }
  }
}
