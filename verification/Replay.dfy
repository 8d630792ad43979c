/** When replaying the log rebuilds the server: dispatch (server.go:233-261) writes it, main.go:56-67
    reads it back into a fresh server. */
module Replay {
  import opened Text
  import opened Decimal
  import opened Tokenizer
  import opened CommandText
  import opened Aof
  import opened Vmset
  import opened StoreSpec
  import opened ServerSpec
  import opened Agreement

  // ---------- the log ----------

  /** What one event writes to the log. */
  function Written(n: Numerals, w: World, e: Event): seq<Command> {
    if e.Request? then Logged(n, w, e.now, e.allowed, e.cmd, e.fate) else []
  }

  /** What the run writes to the log. */
  function Log(n: Numerals, events: seq<Event>): seq<Command> {
    if events == [] then [] else
      var front, last := events[..|events| - 1], events[|events| - 1];
      Log(n, front) + Written(n, After(n, front), last)
  }

  function TextsOf(cmds: seq<Command>): (r: seq<string>)
    ensures |r| == |cmds|
  {
    if cmds == [] then [] else TextsOf(cmds[..|cmds| - 1]) + [TextOf(cmds[|cmds| - 1])]
  }

  /** A fresh server after the lines of a log, each executed at its own time.  Nothing recovers from
      a panic there: the first handler that dies ends the start of the server. */
  function Rebuilt(n: Numerals, lines: seq<string>, clock: nat -> Time, fates: nat -> Fate): Option<World> {
    if lines == [] then Some(EMPTY_WORLD) else
      var k := |lines| - 1;
      match Rebuilt(n, lines[..k], clock, fates)
      case None => None
      case Some(w) => Replayed(n, w, lines[k], clock(k), fates(k))
  }

  /** One line more. */
  function Replayed(n: Numerals, w: World, line: string, now: Time, fate: Fate): Option<World> {
    match ParseOne(line)
    case Some(cmd) =>
      var r := Execute(n, w, now, true, cmd, fate); if r.1.Silence? then None else Some(r.0)
    case None => Some(w)
  }

  // ---------- two servers with the same data ----------

  function EntryAt(v: Vectors, ns: string, id: string): Option<VecEntry> {
    if ns in v && id in v[ns].entries then Some(v[ns].entries[id]) else None
  }

  /** The same vectors, leaving aside namespaces that hold none. */
  ghost predicate SameEntries(a: Vectors, b: Vectors) {
    forall ns, id :: EntryAt(a, ns, id) == EntryAt(b, ns, id)
  }

  ghost predicate NoTtls(w: World) {
    (forall k :: k in w.kv ==> !w.kv[k].hasTTL) && NoTtl(w.vectors)
  }

  ghost predicate Same(a: World, b: World) {
    && NoTtls(a) && NoTtls(b)
    && a.kv == b.kv && a.indexes == b.indexes && SameEntries(a.vectors, b.vectors)
  }

  lemma EntryAfterPut(v: Vectors, now: Time, ns: string, id: string, vector: seq<real>, metadata: Metadata, m: string,
                      k: string)
    requires NoTtl(v)
    ensures var v' := v[ns := Put(NamespaceOf(v, ns), now, id, vector, metadata, 0)];
      NoTtl(v') && EntryAt(v', m, k)
        == if m == ns && k == id then Some(VecEntry(vector, metadata, false, 0)) else EntryAt(v, m, k)
  {
  }

  lemma PutSame(a: Vectors, b: Vectors, now: Time, later: Time, ns: string, id: string, vector: seq<real>,
                metadata: Metadata)
    requires SameEntries(a, b) && NoTtl(a) && NoTtl(b)
    ensures var a', b' := a[ns := Put(NamespaceOf(a, ns), now, id, vector, metadata, 0)],
                          b[ns := Put(NamespaceOf(b, ns), later, id, vector, metadata, 0)];
      SameEntries(a', b') && NoTtl(a') && NoTtl(b')
  {
    hide Put, NamespaceOf, EntryAt, NoTtl;
    var a', b' := a[ns := Put(NamespaceOf(a, ns), now, id, vector, metadata, 0)],
                  b[ns := Put(NamespaceOf(b, ns), later, id, vector, metadata, 0)];
    EntryAfterPut(a, now, ns, id, vector, metadata, ns, id);
    EntryAfterPut(b, later, ns, id, vector, metadata, ns, id);
    forall m, k ensures EntryAt(a', m, k) == EntryAt(b', m, k) {
      EntryAfterPut(a, now, ns, id, vector, metadata, m, k);
      EntryAfterPut(b, later, ns, id, vector, metadata, m, k);
      assert EntryAt(a, m, k) == EntryAt(b, m, k);
    }
  }

  lemma {:induction false} BatchSame(a: Vectors, b: Vectors, now: Time, later: Time, ns: string, dim: int,
                                     batch: seq<BatchEntry>, k: nat)
    requires SameEntries(a, b) && NoTtl(a) && NoTtl(b) && k <= |batch|
    ensures var x, y := PutAll(NamespaceOf(a, ns), now, dim, batch, k),
                        PutAll(NamespaceOf(b, ns), later, dim, batch, k);
      x.1 == y.1 && SameEntries(a[ns := x.0], b[ns := y.0]) && NoTtl(a[ns := x.0]) && NoTtl(b[ns := y.0])
  {
    hide Put, EntryAt, SameEntries, NoTtl;
    if k == 0 {
      TouchSame(a, b, ns);
    } else {
      BatchSame(a, b, now, later, ns, dim, batch, k - 1);
      var x, y := PutAll(NamespaceOf(a, ns), now, dim, batch, k - 1),
                  PutAll(NamespaceOf(b, ns), later, dim, batch, k - 1);
      var e := batch[k - 1];
      if x.1 == k - 1 && |e.vector| == dim {
        PutSame(a[ns := x.0], b[ns := y.0], now, later, ns, e.id, e.vector, e.metadata);
        var p, q := Put(x.0, now, e.id, e.vector, e.metadata, 0), Put(y.0, later, e.id, e.vector, e.metadata, 0);
        assert a[ns := x.0][ns := p] == a[ns := p] && b[ns := y.0][ns := q] == b[ns := q];
      }
    }
  }

  lemma TouchSame(a: Vectors, b: Vectors, ns: string)
    requires SameEntries(a, b) && NoTtl(a) && NoTtl(b)
    ensures var a', b' := a[ns := NamespaceOf(a, ns)], b[ns := NamespaceOf(b, ns)];
      SameEntries(a', b') && NoTtl(a') && NoTtl(b')
  {
    var a', b' := a[ns := NamespaceOf(a, ns)], b[ns := NamespaceOf(b, ns)];
    forall m, k ensures EntryAt(a', m, k) == EntryAt(b', m, k) {
      assert EntryAt(a, m, k) == EntryAt(b, m, k);
    }
  }

  lemma DelSame(a: Vectors, b: Vectors, ns: string, id: string)
    requires SameEntries(a, b) && NoTtl(a) && NoTtl(b)
    ensures var a', b' := VDel(a, ns, id).0, VDel(b, ns, id).0; SameEntries(a', b') && NoTtl(a') && NoTtl(b')
  {
    var a', b' := VDel(a, ns, id).0, VDel(b, ns, id).0;
    forall m, k ensures EntryAt(a', m, k) == EntryAt(b', m, k) {
      assert EntryAt(a, m, k) == EntryAt(b, m, k);
    }
  }

  lemma DropSame(a: Vectors, b: Vectors, ns: string)
    requires SameEntries(a, b) && NoTtl(a) && NoTtl(b)
    ensures SameEntries(a - {ns}, b - {ns}) && NoTtl(a - {ns}) && NoTtl(b - {ns})
  {
    var a', b' := a - {ns}, b - {ns};
    forall m, k ensures EntryAt(a', m, k) == EntryAt(b', m, k) {
      assert EntryAt(a, m, k) == EntryAt(b, m, k);
    }
  }

  lemma LoadedSame(a: Vectors, b: Vectors, now: Time, later: Time, ns: string)
    requires SameEntries(a, b) && NoTtl(a) && NoTtl(b)
    ensures Loaded(a, now, ns) == Loaded(b, later, ns)
  {
    forall id ensures id in VSnapshot(a, now, ns) <==> EntryAt(a, ns, id).Some? {}
    forall id ensures id in VSnapshot(b, later, ns) <==> EntryAt(b, ns, id).Some? {}
    forall id ensures id in Loaded(a, now, ns) <==> id in Loaded(b, later, ns) {
      assert EntryAt(a, ns, id) == EntryAt(b, ns, id);
    }
    forall id | id in Loaded(a, now, ns) ensures Loaded(a, now, ns)[id] == Loaded(b, later, ns)[id] {
      assert EntryAt(a, ns, id) == EntryAt(b, ns, id);
    }
  }

  lemma SetSame(a: World, b: World, now: Time, later: Time, args: seq<string>)
    requires Same(a, b) && !WantsTTL(args)
    ensures Same(HandleSet(a, now, args).0, HandleSet(b, later, args).0)
  {
  }

  lemma VSetSame(n: Numerals, a: World, b: World, now: Time, later: Time, args: seq<string>)
    requires Same(a, b) && NoEx(args)
    ensures Same(HandleVSet(n, a, now, args, Answers).0, HandleVSet(n, b, later, args, Answers).0)
  {
    hide Put, NamespaceOf, SameEntries, NoTtl, Insert, ReadFloats, MapOf, PairsOf;
    var p := ParseVSet(n, args);
    if p.Some? {
      PutSame(a.vectors, b.vectors, now, later, p.value.ns, p.value.id, p.value.vector, p.value.metadata);
    }
  }

  lemma VMSetSame(n: Numerals, a: World, b: World, now: Time, later: Time, args: seq<string>)
    requires Same(a, b)
    ensures Same(HandleVMSet(n, a, now, args, Answers).0, HandleVMSet(n, b, later, args, Answers).0)
  {
    hide PutAll, NamespaceOf, SameEntries, NoTtl, Insert, InsertAll, ReadAll;
    var r := Decode(n, args);
    if r.Entries? {
      BatchSame(a.vectors, b.vectors, now, later, args[0], Atoi(args[1]).value, BatchOf(r.entries), |r.entries|);
    }
  }

  lemma VIndexSame(a: World, b: World, now: Time, later: Time, args: seq<string>)
    requires Same(a, b)
    ensures Same(HandleVIndex(a, now, args, Answers).0, HandleVIndex(b, later, args, Answers).0)
  {
    hide SameEntries, NoTtl, Loaded, CreateParams;
    if |args| >= 2 {
      LoadedSame(a.vectors, b.vectors, now, later, args[1]);
    }
  }

  /** A command that gives no TTL has the same effect on the same data, at any time. */
  lemma ExecuteSame(n: Numerals, a: World, b: World, now: Time, later: Time, cmd: Command)
    requires Same(a, b) && TtlFree(cmd)
    ensures Same(Execute(n, a, now, true, cmd, Answers).0, Execute(n, b, later, true, cmd, Answers).0)
  {
    hide SameEntries, NoTtl, HandleSet, HandleVSet, HandleVMSet, HandleVIndex, VDel, Remove, AsksTop, ToUpper, NoEx,
      WantsTTL;
    var args, name := cmd.args, ToUpper(cmd.name);
    if name == "SET" {
      SetSame(a, b, now, later, args);
    } else if name == "VSET" {
      VSetSame(n, a, b, now, later, args);
    } else if name == "VMSET" {
      VMSetSame(n, a, b, now, later, args);
    } else if name == "VINDEX" {
      VIndexSame(a, b, now, later, args);
    } else if name == "GET" || name == "VGET" || name == "DEL" {
      PlainSame(a, b, now, later, args);
    } else if |args| == 2 {
      DelSame(a.vectors, b.vectors, args[0], args[1]);
      DropSame(a.vectors, b.vectors, args[1]);
    }
  }

  /** Reads take nothing away where nothing expires. */
  lemma PlainSame(a: World, b: World, now: Time, later: Time, args: seq<string>)
    requires Same(a, b)
    ensures Same(HandleGet(a, now, args).0, HandleGet(b, later, args).0)
    ensures Same(HandleVGet(a, now, args).0, HandleVGet(b, later, args).0)
    ensures Same(HandleDel(a, args).0, HandleDel(b, args).0)
    ensures HandleGet(a, now, args).0 == a && HandleVGet(a, now, args).0 == a
  {
    hide SameEntries;
  }

  // ---------- what is not logged changes nothing ----------

  /** An error leaves everything as it was. */
  lemma ErrorsChangeNothing(n: Numerals, w: World, now: Time, allowed: bool, cmd: Command, fate: Fate)
    requires Execute(n, w, now, allowed, cmd, fate).1.Error?
    ensures Execute(n, w, now, allowed, cmd, fate).0 == w
  {
    hide HandleVMSet, ParseVSet, CreateParams, Loaded, AsksTop, ToUpper, VGet, VDel, Get, Del, Expire, VExpire, Put,
      Insert, Remove, Reached, LoadedBy;
    if ToUpper(cmd.name) == "VMSET" {
      VMSetRefuses(n, w, now, cmd.args, fate);
    }
  }

  lemma VMSetRefuses(n: Numerals, w: World, now: Time, args: seq<string>, fate: Fate)
    ensures HandleVMSet(n, w, now, args, fate).1.Error? ==> HandleVMSet(n, w, now, args, fate).0 == w
  {
    hide Decode, PutAll, NamespaceOf, InsertAll, Reached;
    var r := Decode(n, args);
    if r.Entries? {
      DecodedDims(n, args);
      AllPut(NamespaceOf(w.vectors, args[0]), now, Atoi(args[1]).value, BatchOf(r.entries), |r.entries|);
    }
  }

  /** A handler that comes back has done all it would do, whatever its fate might have been. */
  lemma AnswerIsWhole(n: Numerals, w: World, now: Time, allowed: bool, cmd: Command, fate: Fate)
    requires !Execute(n, w, now, allowed, cmd, fate).1.Silence?
    ensures Execute(n, w, now, allowed, cmd, fate) == Execute(n, w, now, allowed, cmd, Answers)
  {
    hide HandleSet, HandleGet, HandleDel, HandleExpire, HandleTTL, HandleVCount, HandleVGet, HandleVExpire, HandleVNS,
      HandleVSet, HandleVDel, HandleVIndex, HandleVMSet, HandleVSimilarity, ToUpper;
    var name, args := ToUpper(cmd.name), cmd.args;
    if !allowed {
      return;
    }
    if name == "VSET" {
      VSetIsWhole(n, w, now, args, fate);
    } else if name == "VMSET" {
      VMSetIsWhole(n, w, now, args, fate);
    } else if name == "VINDEX" {
      VIndexIsWhole(w, now, args, fate);
    } else if name == "VDEL" || name == "VSIMILARITY" {
      VDelIsWhole(n, w, args, fate);
    }
  }

  lemma VSetIsWhole(n: Numerals, w: World, now: Time, args: seq<string>, fate: Fate)
    requires !HandleVSet(n, w, now, args, fate).1.Silence?
    ensures HandleVSet(n, w, now, args, fate) == HandleVSet(n, w, now, args, Answers)
  {
    hide ParseVSet, Put;
    var p := ParseVSet(n, args);
    if p.Some? && p.value.ns !in w.indexes {
      InsertOutside(w.indexes, p.value.ns, p.value.id, p.value.vector, p.value.metadata);
    }
  }

  lemma VDelIsWhole(n: Numerals, w: World, args: seq<string>, fate: Fate)
    ensures !HandleVDel(w, args, fate).1.Silence? ==> HandleVDel(w, args, fate) == HandleVDel(w, args, Answers)
    ensures !HandleVSimilarity(n, w, args, fate).1.Silence? ==>
      HandleVSimilarity(n, w, args, fate) == HandleVSimilarity(n, w, args, Answers)
  {
    hide AsksTop;
  }

  lemma VMSetIsWhole(n: Numerals, w: World, now: Time, args: seq<string>, fate: Fate)
    requires !HandleVMSet(n, w, now, args, fate).1.Silence?
    ensures HandleVMSet(n, w, now, args, fate) == HandleVMSet(n, w, now, args, Answers)
  {
    hide Decode, PutAll, NamespaceOf, InsertAll;
    var r := Decode(n, args);
    if r.Entries? {
      DecodedDims(n, args);
    }
    if r.Entries? && args[0] !in w.indexes {
      InsertAllOutside(w.indexes, args[0], BatchOf(r.entries), |r.entries|);
      InsertAllOutside(w.indexes, args[0], BatchOf(r.entries), Reached(fate, |r.entries|));
    }
  }

  lemma VIndexIsWhole(w: World, now: Time, args: seq<string>, fate: Fate)
    requires !HandleVIndex(w, now, args, fate).1.Silence?
    ensures HandleVIndex(w, now, args, fate) == HandleVIndex(w, now, args, Answers)
  {
    hide CreateParams, Loaded, ToUpper;
    if |args| >= 2 {
      assert fate.Dies? && Loaded(w.vectors, now, args[1]) == map[] ==>
        LoadedBy(fate, Loaded(w.vectors, now, args[1])) == map[];
    }
  }

  lemma MutativeNames(name: string)
    requires IsMutative(name)
    ensures name != "" && forall i :: 0 <= i < |name| ==> 'A' <= name[i] <= 'Z'
  {
    var k :| 0 <= k < |MUTATIVE| && MUTATIVE[k] == name;
  }

  lemma MutativeIsPlain(name: string)
    requires IsMutative(name)
    ensures PlainName(name)
  {
    hide IsMutative, ToUpper;
    MutativeNames(name);
    Capitals(name);
  }

  /** Without TTLs, a command that is not mutative changes nothing. */
  lemma ReadsChangeNothing(n: Numerals, w: World, now: Time, allowed: bool, cmd: Command, fate: Fate)
    requires NoTtls(w) && !IsMutative(cmd.name) && ToUpper(cmd.name) == cmd.name
    ensures Execute(n, w, now, allowed, cmd, fate).0 == w
  {
    hide HandleVMSet, HandleVSet, HandleVIndex, HandleVNS, HandleVExpire, HandleExpire, HandleDel, HandleVDel,
      HandleSet, AsksTop, ToUpper, NoTtl, HandleGet, HandleVGet;
    SameToItself(w);
    PlainSame(w, w, now, now, cmd.args);
    forall k | 0 <= k < |MUTATIVE| ensures MUTATIVE[k] != cmd.name {
      assert MUTATIVE[k] in MUTATIVE;
    }
    assert MUTATIVE[0] == "SET" && MUTATIVE[1] == "DEL" && MUTATIVE[2] == "EXPIRE" && MUTATIVE[3] == "VSET";
    assert MUTATIVE[4] == "VDEL" && MUTATIVE[5] == "VINDEX" && MUTATIVE[6] == "VMSET";
    assert MUTATIVE[7] == "VEXPIRE" && MUTATIVE[8] == "VNS";
  }

  lemma SameToItself(w: World)
    requires NoTtls(w)
    ensures Same(w, w)
  {
  }

  /** A sweep without TTLs only removes namespaces that hold nothing. */
  lemma SweepChangesNothing(w: World, u: World, now: Time)
    requires Same(w, u)
    ensures Same(Swept(w, now), u)
  {
    var v' := SweptVectors(w.vectors, now);
    assert LiveKeys(w.kv, now) == w.kv;
    forall ns, id ensures EntryAt(v', ns, id) == EntryAt(w.vectors, ns, id) {
      if EntryAt(w.vectors, ns, id).Some? {
        assert id in Live(w.vectors[ns].entries, now);
      }
    }
    forall ns, id ensures EntryAt(v', ns, id) == EntryAt(u.vectors, ns, id) {
      assert EntryAt(v', ns, id) == EntryAt(w.vectors, ns, id) == EntryAt(u.vectors, ns, id);
    }
  }

  // ---------- replay ----------

  /** Requests come from the parser, which capitalises the command name. */
  ghost predicate Parsed(events: seq<Event>) {
    forall i :: 0 <= i < |events| && events[i].Request? ==> ToUpper(events[i].cmd.name) == events[i].cmd.name
  }

  /** The commands that Command.String and the log preserve. */
  predicate Loggable(cmd: Command) {
    (forall i :: 0 <= i < |cmd.args| ==> Kept(cmd.args[i])) && Survives(TextOf(cmd))
  }

  lemma NameComesFirst(cmd: Command)
    requires cmd.name != ""
    ensures TextOf(cmd) != ""
  {
    FirstIsKept([cmd.name] + RenderAll(cmd.args));
  }

  lemma {:induction false} FirstIsKept(parts: seq<string>)
    requires parts != [] && parts[0] != ""
    ensures Join(parts) != ""
  {
    if |parts| > 1 {
      FirstIsKept(parts[..|parts| - 1]);
    }
  }

  /** A logged command is read back from its own line. */
  lemma LoggedIsParsed(cmd: Command)
    requires IsMutative(cmd.name) && Loggable(cmd)
    ensures ParseOne(TextOf(cmd)) == Some(cmd)
  {
    hide Tokens, TextOf, Kept, IsMutative;
    MutativeIsPlain(cmd.name);
    NameComesFirst(cmd);
    TextRoundTrip(cmd);
    ChopKeepsClean(TextOf(cmd));
  }

  lemma ChopKeepsClean(line: string)
    requires Clean(line)
    ensures Chop(line) == line
  {
  }

  lemma RebuiltNext(n: Numerals, cmds: seq<Command>, cmd: Command, clock: nat -> Time, fates: nat -> Fate)
    requires IsMutative(cmd.name) && Loggable(cmd)
    ensures var u, k := Rebuilt(n, TextsOf(cmds), clock, fates), |cmds|;
      Rebuilt(n, TextsOf(cmds + [cmd]), clock, fates)
        == if u == None then None
           else
             var r := Execute(n, u.value, clock(k), true, cmd, fates(k)); if r.1.Silence? then None else Some(r.0)
  {
    hide Execute, ParseOne, TextOf, IsMutative, Loggable;
    LoggedIsParsed(cmd);
    assert (cmds + [cmd])[..|cmds|] == cmds;
    var lines := TextsOf(cmds + [cmd]);
    assert lines[..|cmds|] == TextsOf(cmds);
  }

  /** Whether the handler of an event dies. */
  predicate Silent(n: Numerals, w: World, e: Event) {
    e.Request? && Execute(n, w, e.now, e.allowed, e.cmd, e.fate).1.Silence?
  }

  /** One event on the live server, and what of it is replayed on the rebuilt one. */
  lemma EventIsReplayed(n: Numerals, w: World, u: World, e: Event, later: Time)
    requires Same(w, u) && !Silent(n, w, e)
    requires e.Request? ==> TtlFree(e.cmd) && ToUpper(e.cmd.name) == e.cmd.name
    ensures Written(n, w, e) == [] ==> Same(Next(n, w, e), u)
    ensures Written(n, w, e) != [] ==>
      && e.Request? && Written(n, w, e) == [e.cmd] && IsMutative(e.cmd.name)
      && Same(Next(n, w, e), Execute(n, u, later, true, e.cmd, Answers).0)
  {
    hide Same, TtlFree, Swept, ToUpper, IsMutative, Execute;
    match e
    case Tick(now) => SweepChangesNothing(w, u, now);
    case Request(now, allowed, cmd, fate) =>
      if Execute(n, w, now, allowed, cmd, fate).1.Error? {
        ErrorsChangeNothing(n, w, now, allowed, cmd, fate);
      } else if !IsMutative(cmd.name) {
        SameHasNoTtls(w, u);
        ReadsChangeNothing(n, w, now, allowed, cmd, fate);
      } else {
        AllowedIn(n, w, now, allowed, cmd, fate);
        AnswerIsWhole(n, w, now, allowed, cmd, fate);
        ExecuteSame(n, w, u, now, later, cmd);
      }
  }

  lemma SameHasNoTtls(w: World, u: World)
    requires Same(w, u)
    ensures NoTtls(w)
  {
  }

  /** A client that is not allowed in gets an error for everything but AUTH. */
  lemma AllowedIn(n: Numerals, w: World, now: Time, allowed: bool, cmd: Command, fate: Fate)
    requires !Execute(n, w, now, allowed, cmd, fate).1.Error?
    requires IsMutative(cmd.name) && ToUpper(cmd.name) == cmd.name
    ensures allowed
  {
    hide HandleVMSet, HandleVSet, HandleVIndex, HandleVNS, HandleVExpire, HandleExpire, HandleDel, HandleVDel,
      HandleSet, AsksTop, ToUpper, HandleGet, HandleVGet;
    var k :| 0 <= k < |MUTATIVE| && MUTATIVE[k] == cmd.name;
  }

  // ---------- a handler that dies ----------

  /** Whether a handler that dies has changed nothing: it can be checked before the command. */
  ghost predicate Harmless(n: Numerals, w: World, cmd: Command, fate: Fate) {
    var name, args := ToUpper(cmd.name), cmd.args;
    if name == "VSET" then
      var a := ParseVSet(n, args);
      a.Some? ==> Stores(w, a.value.ns, a.value.id, a.value.vector, a.value.metadata)
    else if name == "VMSET" then
      var r := Decode(n, args);
      r.Entries? ==>
        var batch := BatchOf(r.entries);
        StoresLast(w, args[0], batch, |batch|) && StoresLast(w, args[0], batch, Reached(fate, |batch|))
    else if name == "VINDEX" then |args| >= 1 ==> ToUpper(args[0]) != "CREATE"
    else if name == "VDEL" then |args| == 2 ==> EntryAt(w.vectors, args[0], args[1]) == None
    else true
  }

  /** The store holds this vector under this id already. */
  ghost predicate Stores(w: World, ns: string, id: string, vector: seq<real>, metadata: Metadata) {
    EntryAt(w.vectors, ns, id) == Some(VecEntry(vector, metadata, false, 0))
  }

  /** The store holds already what the first k entries of a batch would leave under their ids. */
  ghost predicate StoresLast(w: World, ns: string, batch: seq<BatchEntry>, k: nat)
    requires k <= |batch|
  {
    forall i :: 0 <= i < k && LastOf(batch, batch[i].id, k) == i ==>
      Stores(w, ns, batch[i].id, batch[i].vector, batch[i].metadata)
  }

  /** Without TTLs, what the index holds is what the store holds. */
  lemma HeldIsStored(w: World, now: Time, ns: string, id: string)
    requires NoTtls(w) && Agrees(w.vectors, w.indexes, now, true) && ns in w.indexes
    ensures EntryAt(w.vectors, ns, id).Some? <==> Held(w.indexes, ns, id).Some?
    ensures forall vector, metadata :: Stores(w, ns, id, vector, metadata)
                                  <==> Held(w.indexes, ns, id) == Some(Indexed(vector, metadata))
  {
    assert Held(w.indexes, ns, id) == Shown(w.vectors, now, ns, id);
    if EntryAt(w.vectors, ns, id).Some? {
      var e := w.vectors[ns].entries[id];
      assert e == VecEntry(e.vector, e.metadata, false, 0);
    }
  }

  lemma VSetSilently(n: Numerals, w: World, now: Time, args: seq<string>, fate: Fate)
    requires NoTtls(w) && Agrees(w.vectors, w.indexes, now, true) && NoEx(args)
    requires HandleVSet(n, w, now, args, fate).1.Silence?
    ensures var a := ParseVSet(n, args);
      && a.Some?
      && (Same(HandleVSet(n, w, now, args, fate).0, w)
          <==> Stores(w, a.value.ns, a.value.id, a.value.vector, a.value.metadata))
  {
    hide ReadFloats, MapOf, PairsOf, Agrees, Put, NamespaceOf, EntryAt, Held, NoTtl;
    var a := ParseVSet(n, args).value;
    var w' := HandleVSet(n, w, now, args, fate).0;
    HeldIsStored(w, now, a.ns, a.id);
    EntryAfterPut(w.vectors, now, a.ns, a.id, a.vector, a.metadata, a.ns, a.id);
    if Stores(w, a.ns, a.id, a.vector, a.metadata) {
      InsertAgain(w.indexes, a.ns, a.id, a.vector, a.metadata);
      forall m, k ensures EntryAt(w'.vectors, m, k) == EntryAt(w.vectors, m, k) {
        EntryAfterPut(w.vectors, now, a.ns, a.id, a.vector, a.metadata, m, k);
      }
    }
  }

  lemma InsertAgain(indexes: map<string, IndexState>, ns: string, id: string, vector: seq<real>, metadata: Metadata)
    requires Held(indexes, ns, id) == Some(Indexed(vector, metadata))
    ensures Insert(indexes, ns, id, vector, metadata) == indexes
  {
    assert indexes[ns].entries[id := Indexed(vector, metadata)] == indexes[ns].entries;
  }

  /** A batch stored whole is what its last entries are. */
  lemma EntryAfterBatch(v: Vectors, now: Time, ns: string, dim: int, batch: seq<BatchEntry>, m: string, id: string)
    requires NoTtl(v) && forall i :: 0 <= i < |batch| ==> |batch[i].vector| == dim
    ensures var v', j := v[ns := PutAll(NamespaceOf(v, ns), now, dim, batch, |batch|).0], LastOf(batch, id, |batch|);
      EntryAt(v', m, id)
        == if m == ns && j >= 0 then Some(VecEntry(batch[j].vector, batch[j].metadata, false, 0)) else EntryAt(v, m, id)
  {
    hide PutAll, LastOf;
    BatchIsRead(NamespaceOf(v, ns), now, dim, batch, |batch|, id);
  }

  lemma BatchKeepsNoTtl(v: Vectors, now: Time, ns: string, dim: int, batch: seq<BatchEntry>)
    requires NoTtl(v)
    ensures NoTtl(v[ns := PutAll(NamespaceOf(v, ns), now, dim, batch, |batch|).0])
  {
    hide EntryAt, NoTtl, PutAll;
    SameToItself(World(map[], v, map[]));
    BatchSame(v, v, now, now, ns, dim, batch, |batch|);
  }

  /** Insertions change what an index holds, and nothing else about it. */
  lemma {:induction false} InsertAllShape(indexes: map<string, IndexState>, ns: string, batch: seq<BatchEntry>, k: nat)
    requires k <= |batch| && ns in indexes
    ensures var i := InsertAll(indexes, ns, batch, k);
      && i.Keys == indexes.Keys && i[ns].(entries := indexes[ns].entries) == indexes[ns]
      && forall m :: m in indexes && m != ns ==> i[m] == indexes[m]
  {
    if k > 0 {
      InsertAllShape(indexes, ns, batch, k - 1);
    }
  }

  /** Insertions that change nothing in the end. */
  lemma InsertAllAgain(w: World, now: Time, ns: string, batch: seq<BatchEntry>, k: nat)
    requires NoTtls(w) && Agrees(w.vectors, w.indexes, now, true) && ns in w.indexes && k <= |batch|
    ensures InsertAll(w.indexes, ns, batch, k) == w.indexes <==> StoresLast(w, ns, batch, k)
  {
    hide InsertAll, NoTtls, Agrees, LastOf, Stores;
    var part := InsertAll(w.indexes, ns, batch, k);
    InsertAllShape(w.indexes, ns, batch, k);
    if StoresLast(w, ns, batch, k) {
      forall id ensures Held(part, ns, id) == Held(w.indexes, ns, id) {
        HeldAfter(w.indexes, ns, batch, k, ns, id);
        HeldIsStored(w, now, ns, id);
        var j := LastOf(batch, id, k);
        assert j >= 0 ==> Stores(w, ns, id, batch[j].vector, batch[j].metadata);
      }
      assert part[ns].entries == w.indexes[ns].entries by {
        forall id ensures id in part[ns].entries <==> id in w.indexes[ns].entries {
          assert Held(part, ns, id) == Held(w.indexes, ns, id);
        }
        forall id | id in part[ns].entries ensures part[ns].entries[id] == w.indexes[ns].entries[id] {
          assert Held(part, ns, id) == Held(w.indexes, ns, id);
        }
      }
      assert part[ns] == w.indexes[ns];
    } else {
      var i :| 0 <= i < k && LastOf(batch, batch[i].id, k) == i
               && !Stores(w, ns, batch[i].id, batch[i].vector, batch[i].metadata);
      HeldAfter(w.indexes, ns, batch, k, ns, batch[i].id);
      HeldIsStored(w, now, ns, batch[i].id);
    }
  }

  lemma VMSetSilently(n: Numerals, w: World, now: Time, args: seq<string>, fate: Fate)
    requires NoTtls(w) && Agrees(w.vectors, w.indexes, now, true)
    requires HandleVMSet(n, w, now, args, fate).1.Silence?
    ensures var r := Decode(n, args);
      if r.Failed? then HandleVMSet(n, w, now, args, fate).0 == w
      else
        var batch := BatchOf(r.entries);
        Same(HandleVMSet(n, w, now, args, fate).0, w) <==>
          (StoresLast(w, args[0], batch, |batch|) && StoresLast(w, args[0], batch, Reached(fate, |batch|)))
  {
    hide Decode, PutAll, InsertAll, Agrees, NamespaceOf, EntryAt, NoTtl, LastOf, Reached;
    if Decode(n, args).Failed? {
      return;
    }
    DecodedDims(n, args);
    var ns, dim, batch := args[0], Atoi(args[1]).value, BatchOf(Decode(n, args).entries);
    var w' := HandleVMSet(n, w, now, args, fate).0;
    InsertAllAgain(w, now, ns, batch, Reached(fate, |batch|));
    BatchKeepsNoTtl(w.vectors, now, ns, dim, batch);
    VMSetWorld(n, w, now, args, fate);
    if StoresLast(w, ns, batch, |batch|) {
      forall m, id ensures EntryAt(w'.vectors, m, id) == EntryAt(w.vectors, m, id) {
        EntryAfterBatch(w.vectors, now, ns, dim, batch, m, id);
        var j := LastOf(batch, id, |batch|);
        assert j >= 0 ==> Stores(w, ns, id, batch[j].vector, batch[j].metadata);
      }
    } else {
      var i :| 0 <= i < |batch| && LastOf(batch, batch[i].id, |batch|) == i
               && !Stores(w, ns, batch[i].id, batch[i].vector, batch[i].metadata);
      EntryAfterBatch(w.vectors, now, ns, dim, batch, ns, batch[i].id);
      assert EntryAt(w'.vectors, ns, batch[i].id) != EntryAt(w.vectors, ns, batch[i].id);
    }
  }

  /** A VMSET that dies has stored the batch. */
  lemma VMSetWorld(n: Numerals, w: World, now: Time, args: seq<string>, fate: Fate)
    requires HandleVMSet(n, w, now, args, fate).1.Silence? && Decode(n, args).Entries? && |args| >= 4
      && Atoi(args[1]).Some?
    ensures var batch, dim := BatchOf(Decode(n, args).entries), Atoi(args[1]).value;
      args[0] in w.indexes && HandleVMSet(n, w, now, args, fate).0
        == World(w.kv, w.vectors[args[0] := PutAll(NamespaceOf(w.vectors, args[0]), now, dim, batch, |batch|).0],
                 InsertAll(w.indexes, args[0], batch, Reached(fate, |batch|)))
  {
    hide Decode, PutAll, InsertAll, NamespaceOf;
  }

  lemma VDelSilently(w: World, now: Time, args: seq<string>, fate: Fate)
    requires NoTtls(w) && Agrees(w.vectors, w.indexes, now, true) && HandleVDel(w, args, fate).1.Silence?
    ensures |args| == 2 && (Same(HandleVDel(w, args, fate).0, w) <==> EntryAt(w.vectors, args[0], args[1]) == None)
  {
    hide Agrees;
    HeldIsStored(w, now, args[0], args[1]);
    var w' := HandleVDel(w, args, fate).0;
    assert EntryAt(w'.vectors, args[0], args[1]) == None;
    if EntryAt(w.vectors, args[0], args[1]) == None {
      assert w.indexes[args[0]].entries - {args[1]} == w.indexes[args[0]].entries;
      SameToItself(w);
    }
  }

  lemma VIndexSilently(w: World, now: Time, args: seq<string>, fate: Fate)
    requires NoTtls(w) && HandleVIndex(w, now, args, fate).1.Silence?
    ensures |args| >= 2 && (Same(HandleVIndex(w, now, args, fate).0, w) <==> ToUpper(args[0]) != "CREATE")
  {
    hide CreateParams, Loaded, LoadedBy, NoTtls, ToUpper;
    SameToItself(w);
  }

  /** A handler that dies has left the same data exactly if it is harmless. */
  lemma SilentExactly(n: Numerals, w: World, now: Time, allowed: bool, cmd: Command, fate: Fate)
    requires NoTtls(w) && Agrees(w.vectors, w.indexes, now, true) && TtlFree(cmd)
    requires Execute(n, w, now, allowed, cmd, fate).1.Silence?
    ensures Same(Execute(n, w, now, allowed, cmd, fate).0, w) <==> Harmless(n, w, cmd, fate)
  {
    hide HandleSet, HandleGet, HandleDel, HandleExpire, HandleTTL, HandleVCount, HandleVGet, HandleVExpire, HandleVNS,
      HandleVSet, HandleVDel, HandleVIndex, HandleVMSet, ToUpper, NoTtls, Agrees, Same, EntryAt, WantsTTL, NoEx,
      AsksTop, Stores, StoresLast;
    var name, args := ToUpper(cmd.name), cmd.args;
    OnlyIndexed(n, w, now, allowed, cmd, fate);
    if name == "VSET" {
      VSetSilently(n, w, now, args, fate);
    } else if name == "VMSET" {
      SameToItself(w);
      VMSetSilently(n, w, now, args, fate);
    } else if name == "VINDEX" {
      VIndexSilently(w, now, args, fate);
    } else if name == "VDEL" {
      VDelSilently(w, now, args, fate);
    } else {
      SameToItself(w);
    }
  }

  /** The commands that enter an index. */
  lemma OnlyIndexed(n: Numerals, w: World, now: Time, allowed: bool, cmd: Command, fate: Fate)
    requires Execute(n, w, now, allowed, cmd, fate).1.Silence?
    ensures allowed && ToUpper(cmd.name) in ["VSET", "VMSET", "VINDEX", "VDEL", "VSIMILARITY"]
  {
    hide HandleVSet, HandleVDel, HandleVIndex, HandleVMSet, HandleVSimilarity, ToUpper, Get, Del, Expire, Ttl,
      Seconds, WantsTTL, VGet, VExpire, VSnapshot;
  }

  // ---------- runs ----------

  /** What is logged can be logged. */
  ghost predicate LogKeeps(n: Numerals, events: seq<Event>) {
    forall i :: 0 <= i < |Log(n, events)| ==> Loggable(Log(n, events)[i])
  }

  /** The server started from the log of the run so far, and holds the same data. */
  ghost predicate Restores(n: Numerals, events: seq<Event>, clock: nat -> Time, fates: nat -> Fate) {
    var u := Rebuilt(n, TextsOf(Log(n, events)), clock, fates);
    u.Some? && Same(After(n, events), u.value)
  }

  /** So it does after every event. */
  ghost predicate SameThroughout(n: Numerals, events: seq<Event>, clock: nat -> Time, fates: nat -> Fate) {
    Restores(n, events, clock, fates) && (events != [] ==> SameThroughout(n, events[..|events| - 1], clock, fates))
  }

  /** Every handler of the run that dies is harmless. */
  ghost predicate HarmlessThroughout(n: Numerals, events: seq<Event>) {
    events != [] ==>
      var front, e := events[..|events| - 1], events[|events| - 1];
      && HarmlessThroughout(n, front)
      && (Silent(n, After(n, front), e) ==> Harmless(n, After(n, front), e.cmd, e.fate))
  }

  lemma RunFront(n: Numerals, events: seq<Event>)
    requires events != [] && TtlFreeRun(events) && Parsed(events) && LogKeeps(n, events)
    ensures var front, e := events[..|events| - 1], events[|events| - 1];
      && TtlFreeRun(front) && Parsed(front) && LogKeeps(n, front)
      && (e.Request? ==> TtlFree(e.cmd) && ToUpper(e.cmd.name) == e.cmd.name)
      && Log(n, events) == Log(n, front) + Written(n, After(n, front), e)
      && After(n, events) == Next(n, After(n, front), e)
  {
    hide TtlFree, ToUpper, Written, Next, Loggable;
    var front := events[..|events| - 1];
    assert forall i :: 0 <= i < |front| ==> front[i] == events[i];
    var log := Log(n, front);
    assert forall i :: 0 <= i < |log| ==> log[i] == Log(n, events)[i];
  }

  /** One answered event more on both sides: the rebuilt server has the same data, or has not started. */
  lemma AnsweredNext(n: Numerals, events: seq<Event>, clock: nat -> Time, fates: nat -> Fate)
    requires events != [] && TtlFreeRun(events) && Parsed(events) && LogKeeps(n, events)
    requires var front, e := events[..|events| - 1], events[|events| - 1];
      Restores(n, front, clock, fates) && !Silent(n, After(n, front), e)
    ensures Rebuilt(n, TextsOf(Log(n, events)), clock, fates).Some? ==> Restores(n, events, clock, fates)
  {
    hide Same, TtlFree, Next, Execute, Loggable, ToUpper, IsMutative, Rebuilt, TextsOf, Written, Silent, Timely, Parsed,
      TtlFreeRun;
    var front, e := events[..|events| - 1], events[|events| - 1];
    RunFront(n, events);
    var log := Log(n, front);
    var k := |log|;
    var u := Rebuilt(n, TextsOf(log), clock, fates).value;
    EventIsReplayed(n, After(n, front), u, e, clock(k));
    if Written(n, After(n, front), e) != [] {
      assert Log(n, events)[k] == e.cmd;
      RebuiltNext(n, log, e.cmd, clock, fates);
      if !Execute(n, u, clock(k), true, e.cmd, fates(k)).1.Silence? {
        AnswerIsWhole(n, u, clock(k), true, e.cmd, fates(k));
      }
    } else {
      assert Log(n, events) == log;
    }
  }

  /** A start that has failed stays failed. */
  lemma FailedStays(n: Numerals, events: seq<Event>, clock: nat -> Time, fates: nat -> Fate)
    requires events != [] && TtlFreeRun(events) && Parsed(events) && LogKeeps(n, events)
    requires Rebuilt(n, TextsOf(Log(n, events)), clock, fates).Some?
    ensures Rebuilt(n, TextsOf(Log(n, events[..|events| - 1])), clock, fates).Some?
  {
    hide TtlFree, Next, Execute, Loggable, ToUpper, IsMutative, Rebuilt, TextsOf, Timely, Parsed, TtlFreeRun;
    var front, e := events[..|events| - 1], events[|events| - 1];
    RunFront(n, events);
    if Written(n, After(n, front), e) != [] {
      assert Log(n, events)[|Log(n, front)|] == e.cmd;
      RebuiltNext(n, Log(n, front), e.cmd, clock, fates);
    } else {
      assert Log(n, events) == Log(n, front);
    }
  }

  lemma SameAsBoth(a: World, b: World, c: World)
    requires Same(b, c)
    ensures Same(a, b) <==> Same(a, c)
  {
    if Same(a, b) {
      forall ns, id ensures EntryAt(a.vectors, ns, id) == EntryAt(c.vectors, ns, id) {
        assert EntryAt(a.vectors, ns, id) == EntryAt(b.vectors, ns, id) == EntryAt(c.vectors, ns, id);
      }
    }
    if Same(a, c) {
      forall ns, id ensures EntryAt(a.vectors, ns, id) == EntryAt(b.vectors, ns, id) {
        assert EntryAt(a.vectors, ns, id) == EntryAt(c.vectors, ns, id) == EntryAt(b.vectors, ns, id);
      }
    }
  }

  lemma SameAgrees(a: World, b: World, now: Time)
    requires Same(a, b) && Agrees(b.vectors, b.indexes, now, true)
    ensures Agrees(a.vectors, a.indexes, now, true)
  {
    forall ns, id | ns in a.indexes ensures Held(a.indexes, ns, id) == Shown(a.vectors, now, ns, id) {
      assert EntryAt(a.vectors, ns, id) == EntryAt(b.vectors, ns, id);
      assert Held(b.indexes, ns, id) == Shown(b.vectors, now, ns, id);
    }
  }

  /** One event more keeps the exact agreement, if its handler answers or is harmless. */
  lemma AgreesNext(n: Numerals, front: seq<Event>, e: Event)
    requires Agrees(After(n, front).vectors, After(n, front).indexes, Clock(front), true) && NoTtls(After(n, front))
    requires (front != [] ==> Clock(front) <= e.now) && (e.Request? ==> TtlFree(e.cmd))
    requires Silent(n, After(n, front), e) ==> Harmless(n, After(n, front), e.cmd, e.fate)
    ensures var w' := Next(n, After(n, front), e); Agrees(w'.vectors, w'.indexes, e.now, true)
  {
    hide Agrees, Execute, SweptVectors, TtlFree, Harmless, Caught, NoTtls, DefaultsAhead, Same, After;
    var w := After(n, front);
    StillAgrees(n, front, e.now, true);
    RunsKeepDefaults(n, front);
    match e
    case Tick(t) => SweepAgrees(w.vectors, w.indexes, t, true);
    case Request(t, allowed, cmd, fate) =>
      if Silent(n, w, e) {
        SilentExactly(n, w, t, allowed, cmd, fate);
        SameAgrees(Next(n, w, e), w, t);
      } else {
        if allowed {
          AnswerIsCaught(n, w, t, cmd, fate, true);
        }
        ExecuteAgreesExactly(n, w, t, allowed, cmd, fate, true);
      }
  }

  /** In a run without TTLs whose logged commands are in the class that the log preserves: the
      server rebuilt from the log so far holds the same data after every event exactly if every
      handler of the run that dies is harmless and no handler of the replay dies. */
  lemma {:induction false} LogIsReplayedExactlyIf(n: Numerals, events: seq<Event>, clock: nat -> Time,
                                                  fates: nat -> Fate)
    requires TtlFreeRun(events) && Parsed(events) && Timely(events) && LogKeeps(n, events)
    ensures SameThroughout(n, events, clock, fates)
       <==> HarmlessThroughout(n, events) && Rebuilt(n, TextsOf(Log(n, events)), clock, fates).Some?
    ensures HarmlessThroughout(n, events) ==>
      Agrees(After(n, events).vectors, After(n, events).indexes, Clock(events), true) && NoTtls(After(n, events))
  {
    hide Same, TtlFree, Next, Execute, Loggable, ToUpper, IsMutative, Rebuilt, TextsOf, Written, Harmless, Agrees,
      NoTtls, TtlFreeRun, Parsed, LogKeeps, Timely, Silent;
    if events == [] {
      NothingLogged(n);
      EmptySame(n, clock, fates);
      EmptyAgrees(0, true);
      SameHasNoTtls(EMPTY_WORLD, EMPTY_WORLD);
    } else {
      var front, e := events[..|events| - 1], events[|events| - 1];
      RunFront(n, events);
      Front(events);
      LogIsReplayedExactlyIf(n, front, clock, fates);
      if HarmlessThroughout(n, front) {
        var w := After(n, front);
        if Silent(n, w, e) {
          StillAgrees(n, front, e.now, true);
          SilentEvent(n, w, e);
        } else if Rebuilt(n, TextsOf(Log(n, events)), clock, fates).Some? {
          FailedStays(n, events, clock, fates);
          AnsweredNext(n, events, clock, fates);
        }
        if Silent(n, w, e) && Rebuilt(n, TextsOf(Log(n, front)), clock, fates).Some? {
          assert Log(n, events) == Log(n, front);
          SameAsBoth(Next(n, w, e), w, Rebuilt(n, TextsOf(Log(n, front)), clock, fates).value);
        }
        if HarmlessThroughout(n, events) {
          AgreesNext(n, front, e);
          StillNoTtls(n, front, e);
        }
      }
      if Silent(n, After(n, front), e) {
        SilentIsUnlogged(n, After(n, front), e);
        assert Log(n, events) == Log(n, front);
      } else if Rebuilt(n, TextsOf(Log(n, events)), clock, fates).Some? {
        FailedStays(n, events, clock, fates);
      }
    }
  }

  lemma SilentIsUnlogged(n: Numerals, w: World, e: Event)
    requires Silent(n, w, e)
    ensures Written(n, w, e) == []
  {
    hide Execute;
  }

  /** One event more leaves a server without TTLs, if its handler answers or is harmless. */
  lemma StillNoTtls(n: Numerals, front: seq<Event>, e: Event)
    requires NoTtls(After(n, front)) && (e.Request? ==> TtlFree(e.cmd) && ToUpper(e.cmd.name) == e.cmd.name)
    requires Agrees(After(n, front).vectors, After(n, front).indexes, Clock(front), true)
    requires front != [] ==> Clock(front) <= e.now
    requires Silent(n, After(n, front), e) ==> Harmless(n, After(n, front), e.cmd, e.fate)
    ensures NoTtls(Next(n, After(n, front), e))
  {
    hide Same, TtlFree, Next, Execute, ToUpper, NoTtls, Agrees, Written, Harmless, After;
    var w := After(n, front);
    SameToItself(w);
    if Silent(n, w, e) {
      StillAgrees(n, front, e.now, true);
      SilentEvent(n, w, e);
      SameHasNoTtls(Next(n, w, e), w);
    } else {
      EventIsReplayed(n, w, w, e, e.now);
      if Written(n, w, e) == [] {
        SameHasNoTtls(Next(n, w, e), w);
      } else {
        SameHasNoTtls(Next(n, w, e), Execute(n, w, e.now, true, e.cmd, Answers).0);
      }
    }
  }

  lemma SilentEvent(n: Numerals, w: World, e: Event)
    requires NoTtls(w) && Agrees(w.vectors, w.indexes, e.now, true) && Silent(n, w, e)
    requires e.Request? ==> TtlFree(e.cmd)
    ensures e.Request? && Written(n, w, e) == []
    ensures Same(Next(n, w, e), w) <==> Harmless(n, w, e.cmd, e.fate)
  {
    hide Same, Execute, Harmless, Agrees, NoTtls, TtlFree;
    SilentExactly(n, w, e.now, e.allowed, e.cmd, e.fate);
  }

  /** As long as no handler has died, the server rebuilt from the log so far holds the same data as
      the live one, if it starts. */
  lemma {:induction false} LogIsReplayed(n: Numerals, events: seq<Event>, clock: nat -> Time, fates: nat -> Fate)
    requires TtlFreeRun(events) && Parsed(events) && LogKeeps(n, events) && Answered(n, events)
    ensures Rebuilt(n, TextsOf(Log(n, events)), clock, fates).Some? ==> Restores(n, events, clock, fates)
  {
    hide Same, Rebuilt, TextsOf, TtlFreeRun, Parsed, LogKeeps, Execute, Log;
    if events == [] {
      NothingLogged(n);
      EmptySame(n, clock, fates);
    } else if Rebuilt(n, TextsOf(Log(n, events)), clock, fates).Some? {
      RunFront(n, events);
      FailedStays(n, events, clock, fates);
      LogIsReplayed(n, events[..|events| - 1], clock, fates);
      AnsweredNext(n, events, clock, fates);
    }
  }

  lemma NothingLogged(n: Numerals)
    ensures Log(n, []) == []
  {
  }

  lemma EmptySame(n: Numerals, clock: nat -> Time, fates: nat -> Fate)
    ensures Rebuilt(n, TextsOf([]), clock, fates) == Some(EMPTY_WORLD) && Same(EMPTY_WORLD, EMPTY_WORLD)
  {
  }

  lemma {:induction false} TextAt(cmds: seq<Command>, i: nat)
    requires i < |cmds|
    ensures TextsOf(cmds)[i] == TextOf(cmds[i])
  {
    if i < |cmds| - 1 {
      TextAt(cmds[..|cmds| - 1], i);
    }
  }

  /** For every run without TTLs in which no handler dies and whose logged commands are in the
      class that the log preserves: replaying the file into a fresh server, at whatever times, if
      no handler dies in that either, gives the same keys, the same indexes, and the same vectors
      in every namespace that holds any. */
  lemma ReplayRebuilds(n: Numerals, crc: Checksum, events: seq<Event>, clock: nat -> Time, fates: nat -> Fate)
    requires TtlFreeRun(events) && Parsed(events) && LogKeeps(n, events) && Answered(n, events)
    ensures var texts := TextsOf(Log(n, events));
      var u := Rebuilt(n, Aof.Replay(crc, File(crc, texts)), clock, fates);
      u.Some? ==> Same(After(n, events), u.value)
  {
    hide Same, TtlFreeRun, Parsed, Rebuilt, Aof.Replay, File, Answered;
    FileIsReplayed(n, crc, events);
    LogIsReplayed(n, events, clock, fates);
  }

  /** The file gives back the lines of the log. */
  lemma FileIsReplayed(n: Numerals, crc: Checksum, events: seq<Event>)
    requires LogKeeps(n, events)
    ensures var texts := TextsOf(Log(n, events)); Aof.Replay(crc, File(crc, texts)) == texts
  {
    hide Log, Aof.Replay, File;
    var log := Log(n, events);
    var texts := TextsOf(log);
    forall i | 0 <= i < |texts| ensures Survives(texts[i]) {
      TextAt(log, i);
      assert Loggable(log[i]);
    }
    ReplayInvertsWrite(crc, texts);
  }
}
