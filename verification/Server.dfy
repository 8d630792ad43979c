/** The server as an object over the store, the index map and the log: the handlers and
    dispatch of internal/server, each proved against its function in ServerSpec. */
module Servers {
  import opened Text
  import opened Decimal
  import opened CommandText
  import opened Aof
  import opened Vmset
  import opened StoreSpec
  import Spec = StoreSpec
  import opened Stores
  import opened ServerSpec

  /** The boundaries of the floats of a VSET. */
  method FindWords(args: seq<string>) returns (metaIdx: int, exIdx: int)
    requires |args| >= 3
    ensures metaIdx == (var k := FirstWord(args, "META", 3); if k == |args| then -1 else k)
    ensures exIdx == (var k := FirstWord(args, "EX", 3); if k == |args| then -1 else k)
  {
    metaIdx, exIdx := -1, -1;
    var i := 3;
    while i < |args|
      invariant 3 <= i <= |args| && metaIdx < |args| && exIdx < |args|
      invariant if metaIdx < 0 then metaIdx == -1 && FirstWord(args, "META", 3) == FirstWord(args, "META", i)
                else metaIdx == FirstWord(args, "META", 3)
      invariant if exIdx < 0 then exIdx == -1 && FirstWord(args, "EX", 3) == FirstWord(args, "EX", i)
                else exIdx == FirstWord(args, "EX", 3)
    {
      var upper := ToUpper(args[i]);
      assert "META"[0] != "EX"[0];
      if upper == "META" && metaIdx < 0 {
        metaIdx := i;
      } else if upper == "EX" && exIdx < 0 {
        exIdx := i;
      }
      i := i + 1;
    }
  }

  method ParsePairMap(args: seq<string>) returns (meta: Metadata)
    requires |args| % 2 == 0
    ensures meta == MapOf(ServerSpec.PairsOf(args))
  {
    meta := map[];
    var i := 0;
    while i < |args|
      invariant 0 <= i <= |args| && i % 2 == 0 && meta == MapOf(ServerSpec.PairsOf(args[..i]))
    {
      NextPair(args, i);
      meta := meta[args[i] := args[i + 1]];
      i := i + 2;
    }
    assert args[..i] == args;
  }

  lemma NextPair(args: seq<string>, i: nat)
    requires i % 2 == 0 && i + 2 <= |args|
    ensures MapOf(ServerSpec.PairsOf(args[..i + 2])) == MapOf(ServerSpec.PairsOf(args[..i]))[args[i] := args[i + 1]]
  {
    assert args[..i + 2][..i] == args[..i];
    var front := ServerSpec.PairsOf(args[..i]);
    assert (front + [(args[i], args[i + 1])])[..|front|] == front;
  }

  method ParseVSetArgs(n: Numerals, args: seq<string>) returns (r: Option<VSetArgs>)
    ensures r == ParseVSet(n, args)
  {
    hide FirstWord, ReadFloats, MapOf, ServerSpec.PairsOf, Atoi, Seconds, MetaArgs;
    if |args| < 4 {
      return None;
    }
    var dim := Atoi(args[2]);
    if dim == None || dim.value <= 0 {
      return None;
    }
    var metaIdx, exIdx := FindWords(args);
    var floatEnd := |args|;
    if metaIdx >= 0 && metaIdx < floatEnd {
      floatEnd := metaIdx;
    }
    if exIdx >= 0 && exIdx < floatEnd {
      floatEnd := exIdx;
    }
    if floatEnd - 3 != dim.value {
      return None;
    }
    var vec := ParseVector(n, args, 3, dim.value);
    if |vec| < dim.value {
      return None;
    }
    var meta := ParseMeta(args, metaIdx, exIdx);
    if meta == None {
      return None;
    }
    var ttl := ParseTtl(args, exIdx);
    if ttl == None {
      return None;
    }
    return Some(VSetArgs(args[0], args[1], vec, meta.value, ttl.value));
  }

  /** The pairs between META and EX, or nothing if their number is odd. */
  method ParseMeta(args: seq<string>, metaIdx: int, exIdx: int) returns (meta: Option<Metadata>)
    requires metaIdx < |args| && exIdx < |args|
    ensures var pairs := MetaArgs(args, if metaIdx < 0 then |args| else metaIdx, if exIdx < 0 then |args| else exIdx);
      meta == if |pairs| % 2 != 0 then None else Some(MapOf(ServerSpec.PairsOf(pairs)))
  {
    hide MapOf, ServerSpec.PairsOf;
    var metaArgs := [];
    if metaIdx >= 0 {
      var metaEnd := if exIdx > metaIdx then exIdx else |args|;
      metaArgs := args[metaIdx + 1..metaEnd];
    }
    if |metaArgs| % 2 != 0 {
      return None;
    }
    var m := ParsePairMap(metaArgs);
    meta := Some(m);
  }

  /** The duration after EX, 0 without EX. */
  method ParseTtl(args: seq<string>, exIdx: int) returns (ttl: Option<Time>)
    requires exIdx < |args|
    ensures ttl == if exIdx < 0 then Some(0) else if exIdx + 1 >= |args| then None else Seconds(args[exIdx + 1])
  {
    hide Atoi;
    if exIdx < 0 {
      return Some(0);
    }
    if exIdx + 1 >= |args| {
      return None;
    }
    var seconds := Atoi(args[exIdx + 1]);
    if seconds == None || seconds.value <= 0 {
      return None;
    }
    return Some(seconds.value * SECOND);
  }

  method ParseCreateParams(args: seq<string>) returns (r: Option<Params>)
    requires |args| >= 2
    ensures r == CreateParams(args, 2, Params(16, 200, 100))
  {
    var p := Params(16, 200, 100);
    var i := 2;
    while i < |args|
      invariant 2 <= i <= |args| && CreateParams(args, i, p) == CreateParams(args, 2, Params(16, 200, 100))
      decreases |args| - i
    {
      if i + 1 >= |args| {
        return None;
      }
      var value := Atoi(args[i + 1]);
      if value == None || value.value <= 0 {
        return None;
      }
      match ToUpper(args[i]) {
        case "M" => p := p.(m := value.value);
        case "EF_CONSTRUCTION" => p := p.(efConstruction := value.value);
        case "EF_SEARCH" => p := p.(efSearch := value.value);
        case _ => return None;
      }
      i := i + 2;
    }
    r := Some(p);
  }

  class Server {
    const numerals: Numerals
    const store: Store
    const aof: AofWriter
    var indexes: map<string, IndexState>

    constructor (numerals: Numerals, store: Store, aof: AofWriter)
      ensures this.numerals == numerals && this.store == store && this.aof == aof && indexes == map[]
    {
      this.numerals, this.store, this.aof := numerals, store, aof;
      indexes := map[];
    }

    function Now(): World
      reads this, store
    {
      World(store.kv, store.vectors, indexes)
    }

    /** The k-th call of Insert by a handler, which may die in it. */
    method InsertIfIndexed(ns: string, id: string, vector: seq<real>, metadata: Metadata, k: nat, fate: Fate)
      returns (ok: bool)
      modifies this`indexes
      ensures ok <==> !(ns in old(indexes) && fate.Dies? && fate.k == k)
      ensures indexes == if ok || fate.takes then Insert(old(indexes), ns, id, vector, metadata) else old(indexes)
    {
      ok := true;
      if ns in indexes {
        ok := !(fate.Dies? && fate.k == k);
        if ok || fate.takes {
          var idx := indexes[ns];
          indexes := indexes[ns := idx.(entries := idx.entries[id := Indexed(vector, metadata)])];
        }
      }
    }

    method HandleSet(now: Time, args: seq<string>) returns (r: Response)
      modifies store`kv
      ensures (Now(), r) == ServerSpec.HandleSet(old(Now()), now, args)
    {
      if |args| < 2 {
        return Error;
      }
      if |args| >= 4 && ToUpper(args[2]) == "EX" {
        var seconds := Atoi(args[3]);
        if seconds == None || seconds.value <= 0 {
          return Error;
        }
        store.SetWithTTL(now, args[0], args[1], seconds.value * SECOND);
      } else {
        store.Set(args[0], args[1]);
      }
      return Okay;
    }

    method HandleGet(now: Time, args: seq<string>) returns (r: Response)
      modifies store`kv
      ensures (Now(), r) == ServerSpec.HandleGet(old(Now()), now, args)
    {
      if |args| != 1 {
        return Error;
      }
      var value := store.Get(now, args[0]);
      r := if value.Some? then Bulk(value.value) else Nil;
    }

    method HandleDel(args: seq<string>) returns (r: Response)
      modifies store`kv
      ensures (Now(), r) == ServerSpec.HandleDel(old(Now()), args)
    {
      if |args| == 0 {
        return Error;
      }
      var count := store.Del(args);
      r := Integer(count);
    }

    method HandleExpire(now: Time, args: seq<string>) returns (r: Response)
      modifies store`kv
      ensures (Now(), r) == ServerSpec.HandleExpire(old(Now()), now, args)
    {
      if |args| != 2 {
        return Error;
      }
      var seconds := Atoi(args[1]);
      if seconds == None || seconds.value <= 0 {
        return Error;
      }
      var ok := store.Expire(now, args[0], seconds.value * SECOND);
      r := Integer(if ok then 1 else 0);
    }

    method HandleVSet(now: Time, args: seq<string>, fate: Fate) returns (r: Response)
      modifies this`indexes, store`vectors
      ensures (Now(), r) == ServerSpec.HandleVSet(numerals, old(Now()), now, args, fate)
    {
      hide ParseVSet;
      var parsed := ParseVSetArgs(numerals, args);
      if parsed == None {
        return Error;
      }
      var a := parsed.value;
      var ok := store.VSetWithTTL(now, a.ns, a.id, |a.vector|, a.vector, a.metadata, a.ttl);
      ok := InsertIfIndexed(a.ns, a.id, a.vector, a.metadata, 0, fate);
      return if ok then Okay else Silence;
    }

    method HandleVGet(now: Time, args: seq<string>) returns (r: Response)
      modifies store`vectors
      ensures (Now(), r) == ServerSpec.HandleVGet(old(Now()), now, args)
    {
      if |args| != 2 {
        return Error;
      }
      var entry := store.VGet(now, args[0], args[1]);
      r := if entry == None then Nil else Data;
    }

    method HandleVDel(args: seq<string>, fate: Fate) returns (r: Response)
      modifies this`indexes, store`vectors
      ensures (Now(), r) == ServerSpec.HandleVDel(old(Now()), args, fate)
    {
      if |args| != 2 {
        return Error;
      }
      var deleted := store.VDel(args[0], args[1]);
      if args[0] in indexes {
        var dies := fate.Dies? && fate.k == 0;
        if !dies || fate.takes {
          var idx := indexes[args[0]];
          indexes := indexes[args[0] := idx.(entries := idx.entries - {args[1]})];
        }
        if dies {
          return Silence;
        }
      }
      r := Integer(if deleted then 1 else 0);
    }

    method HandleVMSet(now: Time, args: seq<string>, fate: Fate) returns (r: Response)
      modifies this`indexes, store`vectors
      ensures (Now(), r) == ServerSpec.HandleVMSet(numerals, old(Now()), now, args, fate)
    {
      hide Decode, PutAll, NamespaceOf, Insert, Reached;
      var parsed := ParseArgs(numerals, args);
      if parsed.Failed? {
        return if parsed.failure.Panic? then Silence else Error;
      }
      DecodeHasDim(numerals, args);
      var batch := BatchOf(parsed.entries);
      var stored, ok := store.VMSet(now, args[0], Atoi(args[1]).value, batch);
      if !ok {
        return Error;
      }
      for i := 0 to |batch|
        invariant indexes == InsertAll(old(indexes), args[0], batch, i)
        invariant args[0] in old(indexes) && fate.Dies? ==> i <= fate.k
        invariant store.kv == old(store.kv)
        invariant store.vectors == Spec.VMSet(old(store.vectors), now, args[0], Atoi(args[1]).value, batch).0
      {
        InsertAllKeeps(old(indexes), args[0], batch, i);
        ok := InsertIfIndexed(args[0], batch[i].id, batch[i].vector, batch[i].metadata, i, fate);
        if !ok {
          ReachedInside(old(indexes), args[0], batch, fate, i);
          return Silence;
        }
      }
      ReachedAll(old(indexes), args[0], batch, fate);
      r := Integer(stored);
    }

    method HandleCreate(now: Time, args: seq<string>, fate: Fate) returns (r: Response)
      requires |args| >= 2
      modifies this`indexes
      ensures (Now(), r) == ServerSpec.HandleCreate(old(Now()), now, args, fate)
    {
      hide CreateParams, VSnapshot, AsIndexed, LoadedBy;
      var p := ParseCreateParams(args);
      if p == None {
        return Error;
      }
      var ns := args[1];
      if ns in indexes {
        return Error;
      }
      indexes := indexes[ns := IndexState(p.value.m, p.value.efConstruction, p.value.efSearch, map[])];
      var live := store.VSnapshot(now, ns);
      BulkLoad(ns, live, fate);
      NothingIndexed(live);
      assert indexes == old(indexes)[ns := indexes[ns]];
      return if fate.Dies? && live != map[] then Silence else Okay;
    }

    /** Loads the live vectors of a namespace into its empty index, in any order. */
    method BulkLoad(ns: string, live: map<string, VecEntry>, fate: Fate)
      requires ns in indexes && indexes[ns].entries == map[]
      modifies this`indexes
      ensures indexes == old(indexes)[ns := old(indexes)[ns].(entries := LoadedBy(fate, AsIndexed(live)))]
    {
      hide AsIndexed, LoadedBy;
      var entries: map<string, Indexed> := map[];
      var pending := live.Keys;
      NothingLoaded(live);
      while pending != {} && !(fate.Dies? && pending <= fate.left)
        invariant pending <= live.Keys && (fate.Dies? ==> live.Keys * fate.left <= pending)
        invariant entries == AsIndexed(live) - pending
        invariant indexes == old(indexes)[ns := old(indexes)[ns].(entries := entries)]
        decreases |pending|
      {
        var id :| id in pending && !(fate.Dies? && id in fate.left);
        OneMoreLoaded(live, pending, id);
        entries := entries[id := Indexed(live[id].vector, live[id].metadata)];
        indexes := indexes[ns := indexes[ns].(entries := entries)];
        pending := pending - {id};
      }
      AllLoaded(live, pending, fate);
    }

    method HandleVIndex(now: Time, args: seq<string>, fate: Fate) returns (r: Response)
      modifies this`indexes
      ensures (Now(), r) == ServerSpec.HandleVIndex(old(Now()), now, args, fate)
    {
      hide CreateParams, Loaded, ToUpper, ServerSpec.HandleCreate;
      if |args| < 2 {
        return Error;
      }
      var sub, ns := ToUpper(args[0]), args[1];
      if sub == "CREATE" {
        r := HandleCreate(now, args, fate);
      } else if sub == "DROP" {
        if ns !in indexes {
          return Error;
        }
        indexes := indexes - {ns};
        r := Okay;
      } else if sub == "INFO" {
        if ns !in indexes {
          return Error;
        }
        r := if fate.Dies? && fate.k == 0 then Silence else Data;
      } else if sub == "SET_EF" {
        if |args| != 3 {
          return Error;
        }
        var ef := Atoi(args[2]);
        if ef == None || ef.value <= 0 || ns !in indexes {
          return Error;
        }
        if fate.Dies? && fate.k == 0 {
          return Silence;
        }
        indexes := indexes[ns := indexes[ns].(ef := ef.value)];
        r := Okay;
      } else {
        r := Error;
      }
    }

    method HandleVExpire(now: Time, args: seq<string>) returns (r: Response)
      modifies store`vectors
      ensures (Now(), r) == ServerSpec.HandleVExpire(old(Now()), now, args)
    {
      hide VExpire;
      if |args| != 2 {
        return Error;
      }
      var seconds := Atoi(args[1]);
      if seconds == None || seconds.value <= 0 {
        return Error;
      }
      var ok := store.VExpireNamespace(now, args[0], seconds.value * SECOND);
      r := Integer(if ok then 1 else 0);
    }

    method HandleVNS(args: seq<string>) returns (r: Response)
      modifies this`indexes, store`vectors
      ensures (Now(), r) == ServerSpec.HandleVNS(old(Now()), args)
    {
      if |args| < 1 {
        return Error;
      }
      var sub := ToUpper(args[0]);
      if sub == "DROP" {
        if |args| != 2 {
          return Error;
        }
        var ok := store.VNSDrop(args[1]);
        if args[1] in indexes {
          indexes := indexes - {args[1]};
        } else {
          assert indexes - {args[1]} == indexes;
        }
        r := Integer(if ok then 1 else 0);
      } else if sub == "LIST" {
        r := Data;
      } else {
        r := Error;
      }
    }

    method HandleReads(now: Time, name: string, args: seq<string>, fate: Fate) returns (r: Response)
      ensures name == "TTL" ==> (Now(), r) == HandleTTL(Now(), now, args)
      ensures name == "VCOUNT" ==> (Now(), r) == HandleVCount(Now(), now, args)
      ensures name == "VSIMILARITY" ==> (Now(), r) == HandleVSimilarity(numerals, Now(), args, fate)
    {
      if name == "TTL" {
        r := if |args| != 1 then Error else Integer(Ttl(store.kv, now, args[0]));
      } else if name == "VCOUNT" {
        if |args| != 1 {
          return Error;
        }
        var count := store.VCount(now, args[0]);
        r := Integer(count);
      } else {
        if !AsksTop(numerals, args) {
          return Error;
        }
        r := if args[0] in indexes && fate.Dies? && fate.k == 0 then Silence else Data;
      }
    }

    /** Runs one command without logging it. */
    method ExecuteCommand(now: Time, allowed: bool, cmd: Command, fate: Fate) returns (r: Response)
      modifies this`indexes, store
      ensures (Now(), r) == Execute(numerals, old(Now()), now, allowed, cmd, fate)
    {
      hide ServerSpec.HandleSet, ServerSpec.HandleGet, ServerSpec.HandleDel, ServerSpec.HandleExpire, HandleTTL,
        ServerSpec.HandleVSet, ServerSpec.HandleVGet, ServerSpec.HandleVDel, HandleVCount, HandleVSimilarity,
        ServerSpec.HandleVIndex, ServerSpec.HandleVMSet, ServerSpec.HandleVExpire, ServerSpec.HandleVNS, ToUpper;
      var name := ToUpper(cmd.name);
      if !allowed && name != "AUTH" {
        return Error;
      }
      match name {
        case "SET" => r := HandleSet(now, cmd.args);
        case "GET" => r := HandleGet(now, cmd.args);
        case "DEL" => r := HandleDel(cmd.args);
        case "EXPIRE" => r := HandleExpire(now, cmd.args);
        case "TTL" => r := HandleReads(now, "TTL", cmd.args, fate);
        case "VSET" => r := HandleVSet(now, cmd.args, fate);
        case "VGET" => r := HandleVGet(now, cmd.args);
        case "VDEL" => r := HandleVDel(cmd.args, fate);
        case "VCOUNT" => r := HandleReads(now, "VCOUNT", cmd.args, fate);
        case "VSIMILARITY" => r := HandleReads(now, "VSIMILARITY", cmd.args, fate);
        case "VINDEX" => r := HandleVIndex(now, cmd.args, fate);
        case "VMSET" => r := HandleVMSet(now, cmd.args, fate);
        case "VEXPIRE" => r := HandleVExpire(now, cmd.args);
        case "VNS" => r := HandleVNS(cmd.args);
        case "PING" => r := Data;
        case "INFO" => r := Data;
        case "AUTH" => r := Data;
        case _ => r := Error;
      }
    }

    /** Runs one command, and logs it if it is mutative and was answered without an error; a
        handler that dies is never logged. */
    method Dispatch(now: Time, allowed: bool, cmd: Command, fate: Fate) returns (r: Response)
      modifies this`indexes, store, aof
      ensures (Now(), r) == Execute(numerals, old(Now()), now, allowed, cmd, fate)
      ensures var logged := Logged(numerals, old(Now()), now, allowed, cmd, fate);
        aof.file == if logged == [] then old(aof.file) else old(aof.file) + Record(aof.crc, TextOf(cmd))
    {
      hide Execute, Record;
      r := ExecuteCommand(now, allowed, cmd, fate);
      if !r.Error? && !r.Silence? && IsMutative(cmd.name) {
        var line := Print(cmd);
        aof.Write(line);
      }
    }
  }

  lemma {:induction false} InsertAllKeeps(indexes: map<string, IndexState>, ns: string, batch: seq<BatchEntry>, k: nat)
    requires k <= |batch|
    ensures ns in InsertAll(indexes, ns, batch, k) <==> ns in indexes
    ensures ns !in indexes ==> InsertAll(indexes, ns, batch, k) == indexes
  {
    if k > 0 {
      InsertAllKeeps(indexes, ns, batch, k - 1);
    }
  }

  lemma ReachedInside(indexes: map<string, IndexState>, ns: string, batch: seq<BatchEntry>, fate: Fate, k: nat)
    requires k < |batch| && fate.Dies? && fate.k == k
    ensures Reached(fate, |batch|) == if fate.takes then k + 1 else k
  {
  }

  lemma ReachedAll(indexes: map<string, IndexState>, ns: string, batch: seq<BatchEntry>, fate: Fate)
    requires ns in indexes && fate.Dies? ==> |batch| <= fate.k
    ensures InsertAll(indexes, ns, batch, Reached(fate, |batch|)) == InsertAll(indexes, ns, batch, |batch|)
  {
    InsertAllKeeps(indexes, ns, batch, |batch|);
    InsertAllKeeps(indexes, ns, batch, Reached(fate, |batch|));
  }

  lemma NothingIndexed(live: map<string, VecEntry>)
    ensures live == map[] <==> AsIndexed(live) == map[]
  {
    assert AsIndexed(live).Keys == live.Keys;
  }

  lemma NothingLoaded(live: map<string, VecEntry>)
    ensures AsIndexed(live) - live.Keys == map[]
  {
  }

  lemma OneMoreLoaded(live: map<string, VecEntry>, pending: set<string>, id: string)
    requires id in pending && id in live
    ensures (AsIndexed(live) - pending)[id := Indexed(live[id].vector, live[id].metadata)]
         == AsIndexed(live) - (pending - {id})
  {
  }

  lemma AllLoaded(live: map<string, VecEntry>, pending: set<string>, fate: Fate)
    requires fate.Dies? ==> live.Keys * fate.left <= pending
    requires pending <= live.Keys && (pending == {} || (fate.Dies? && pending <= fate.left))
    ensures AsIndexed(live) - pending == LoadedBy(fate, AsIndexed(live))
  {
    if fate.Dies? {
      assert forall id :: id in live ==> (id in pending <==> id in fate.left);
    } else {
      assert AsIndexed(live) - {} == AsIndexed(live);
    }
  }

  lemma DecodeHasDim(n: Numerals, args: seq<string>)
    ensures Decode(n, args).Entries? ==> |args| >= 4 && Atoi(args[1]).Some?
  {
  }
}
