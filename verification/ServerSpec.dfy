/** The command state machine of the server, as functions: handlers_kv.go, handlers_vector.go,
    handlers_hnsw.go, handlers_admin.go and server.go:233-327.  An index is abstracted to the
    vectors it holds by key; what a query finds and how it is formatted is not part of it.
    Inside an index a handler can panic or block for ever; when it does is Serving's subject. */
module ServerSpec {
  import opened Text
  import opened Decimal
  import opened CommandText
  import opened Vmset
  import opened StoreSpec

  datatype Indexed = Indexed(vector: seq<real>, metadata: Metadata)

  datatype IndexState = IndexState(m: int, efConstruction: int, ef: int, entries: map<string, Indexed>)

  datatype World = World(kv: Keys, vectors: Vectors, indexes: map<string, IndexState>)

  const EMPTY_WORLD := World(map[], map[], map[])

  /** A reply: an error, or one of the others; Data stands for any formatted contents.
      Silence is no reply: the handler has panicked or blocks for ever. */
  datatype Response = Error | Okay | Nil | Integer(n: int) | Bulk(value: string) | Data | Silence

  /** What becomes of a handler inside an index: it comes back, or it dies in its k-th call, which
      may or may not have changed the index before.  For the bulk load, whose order is that of
      a Go map, `left` are the ids not reached. */
  datatype Fate = Answers | Dies(k: nat, takes: bool, left: set<string>)

  /** How many of the calls have an effect. */
  function Reached(fate: Fate, count: nat): (k: nat)
    ensures k <= count
  {
    if fate.Dies? && fate.k < count then fate.k + (if fate.takes then 1 else 0) else count
  }

  predicate Dying(indexes: map<string, IndexState>, ns: string, fate: Fate, count: nat) {
    ns in indexes && fate.Dies? && fate.k < count
  }

  // ---------- keys ----------

  /** A positive number of seconds, as a duration. */
  function Seconds(arg: string): Option<Time> {
    match Atoi(arg)
    case Some(n) => if n > 0 then Some(n * SECOND) else None
    case None => None
  }

  predicate WantsTTL(args: seq<string>) {
    |args| >= 4 && ToUpper(args[2]) == "EX"
  }

  function HandleSet(w: World, now: Time, args: seq<string>): (World, Response) {
    if |args| < 2 then (w, Error)
    else if WantsTTL(args) then
      match Seconds(args[3])
      case Some(ttl) => (w.(kv := w.kv[args[0] := KvEntry(args[1], true, now + ttl)]), Okay)
      case None => (w, Error)
    else (w.(kv := w.kv[args[0] := Plain(args[1])]), Okay)
  }

  function HandleGet(w: World, now: Time, args: seq<string>): (World, Response) {
    if |args| != 1 then (w, Error) else
      var r := Get(w.kv, now, args[0]);
      (w.(kv := r.0), match r.1 case Some(value) => Bulk(value) case None => Nil)
  }

  function HandleDel(w: World, args: seq<string>): (World, Response) {
    if args == [] then (w, Error) else
      var r := Del(w.kv, args);
      (w.(kv := r.0), Integer(r.1))
  }

  function Truth(b: bool): Response {
    Integer(if b then 1 else 0)
  }

  function HandleExpire(w: World, now: Time, args: seq<string>): (World, Response) {
    if |args| != 2 then (w, Error) else
      match Seconds(args[1])
      case None => (w, Error)
      case Some(ttl) => var r := Expire(w.kv, now, args[0], ttl); (w.(kv := r.0), Truth(r.1))
  }

  function HandleTTL(w: World, now: Time, args: seq<string>): (World, Response) {
    (w, if |args| != 1 then Error else Integer(Ttl(w.kv, now, args[0])))
  }

  // ---------- vectors ----------

  /** The first position from i on where the word stands, in any case; the length if none. */
  function FirstWord(args: seq<string>, word: string, i: nat): (k: nat)
    requires i <= |args|
    ensures i <= k <= |args|
    decreases |args| - i
  {
    if i == |args| || ToUpper(args[i]) == word then i else FirstWord(args, word, i + 1)
  }

  function PairsOf(args: seq<string>): (pairs: seq<(string, string)>)
    requires |args| % 2 == 0
  {
    if args == [] then [] else PairsOf(args[..|args| - 2]) + [(args[|args| - 2], args[|args| - 1])]
  }

  datatype VSetArgs = VSetArgs(ns: string, id: string, vector: seq<real>, metadata: Metadata, ttl: Time)

  /** What stands between META and EX, or after META. */
  function MetaArgs(args: seq<string>, meta: nat, ex: nat): seq<string>
    requires meta <= |args| && ex <= |args|
  {
    if meta == |args| then [] else args[meta + 1..if ex > meta then ex else |args|]
  }

  /** The arguments of VSET: floats up to META or EX, pairs up to EX, seconds after EX. */
  function ParseVSet(n: Numerals, args: seq<string>): Option<VSetArgs> {
    if |args| < 4 then None else
      var dim := Atoi(args[2]);
      if dim == None || dim.value <= 0 then None else
        var meta, ex := FirstWord(args, "META", 3), FirstWord(args, "EX", 3);
        var floatEnd := if meta < ex then meta else ex;
        if floatEnd - 3 != dim.value then None else
          var vector := ReadFloats(n, args, 3, dim.value);
          if |vector| < dim.value then None else
            var pairs := MetaArgs(args, meta, ex);
            if |pairs| % 2 != 0 then None
            else if ex == |args| then Some(VSetArgs(args[0], args[1], vector, MapOf(PairsOf(pairs)), 0))
            else if ex + 1 >= |args| then None
            else
              match Seconds(args[ex + 1])
              case Some(ttl) => Some(VSetArgs(args[0], args[1], vector, MapOf(PairsOf(pairs)), ttl))
              case None => None
  }

  /** The vector is in the index under its key, if the namespace has an index. */
  function Insert(indexes: map<string, IndexState>, ns: string, id: string, vector: seq<real>, metadata: Metadata)
    : map<string, IndexState>
  {
    if ns in indexes then
      var idx := indexes[ns];
      indexes[ns := idx.(entries := idx.entries[id := Indexed(vector, metadata)])]
    else indexes
  }

  /** The store is written first; a handler that dies in the index leaves it written. */
  function HandleVSet(n: Numerals, w: World, now: Time, args: seq<string>, fate: Fate): (World, Response) {
    match ParseVSet(n, args)
    case None => (w, Error)
    case Some(a) =>
      var v := w.vectors[a.ns := Put(NamespaceOf(w.vectors, a.ns), now, a.id, a.vector, a.metadata, a.ttl)];
      var i := if Reached(fate, 1) == 1 then Insert(w.indexes, a.ns, a.id, a.vector, a.metadata) else w.indexes;
      (World(w.kv, v, i), if Dying(w.indexes, a.ns, fate, 1) then Silence else Okay)
  }

  function HandleVGet(w: World, now: Time, args: seq<string>): (World, Response) {
    if |args| != 2 then (w, Error) else
      var r := VGet(w.vectors, now, args[0], args[1]);
      (w.(vectors := r.0), if r.1 == None then Nil else Data)
  }

  function Remove(indexes: map<string, IndexState>, ns: string, id: string): map<string, IndexState> {
    if ns in indexes then
      var idx := indexes[ns];
      indexes[ns := idx.(entries := idx.entries - {id})]
    else indexes
  }

  function HandleVDel(w: World, args: seq<string>, fate: Fate): (World, Response) {
    if |args| != 2 then (w, Error) else
      var r := VDel(w.vectors, args[0], args[1]);
      var i := if Reached(fate, 1) == 1 then Remove(w.indexes, args[0], args[1]) else w.indexes;
      (World(w.kv, r.0, i), if Dying(w.indexes, args[0], fate, 1) then Silence else Truth(r.1))
  }

  function HandleVCount(w: World, now: Time, args: seq<string>): (World, Response) {
    (w, if |args| != 1 then Error else Integer(|VSnapshot(w.vectors, now, args[0])|))
  }

  /** Whether a VSIMILARITY command is well formed. */
  predicate AsksTop(n: Numerals, args: seq<string>) {
    |args| >= 5 &&
    var dim, top := Atoi(args[1]), FirstWord(args, "TOP", 2);
    && dim.Some? && dim.value > 0
    && top + 1 < |args|
    && (var k := Atoi(args[top + 1]); k.Some? && 0 < k.value <= 1000)
    && top - 2 == dim.value && |ReadFloats(n, args, 2, dim.value)| == dim.value
  }

  function HandleVSimilarity(n: Numerals, w: World, args: seq<string>, fate: Fate): (World, Response) {
    (w, if !AsksTop(n, args) then Error else if Dying(w.indexes, args[0], fate, 1) then Silence else Data)
  }

  function BatchOf(entries: seq<Entry>): (batch: seq<BatchEntry>)
    ensures |batch| == |entries|
    ensures forall i :: 0 <= i < |batch| ==> batch[i].id == entries[i].id && batch[i].vector == entries[i].vector
  {
    seq(|entries|, i requires 0 <= i < |entries| =>
      var m := entries[i].metadata; BatchEntry(entries[i].id, entries[i].vector, if m.Some? then m.value else map[]))
  }

  function InsertAll(indexes: map<string, IndexState>, ns: string, batch: seq<BatchEntry>, k: nat)
    : map<string, IndexState>
    requires k <= |batch|
  {
    if k == 0 then indexes
    else Insert(InsertAll(indexes, ns, batch, k - 1), ns, batch[k - 1].id, batch[k - 1].vector, batch[k - 1].metadata)
  }

  function HandleVMSet(n: Numerals, w: World, now: Time, args: seq<string>, fate: Fate): (World, Response) {
    match Decode(n, args)
    case Failed(failure) => (w, if failure.Panic? then Silence else Error)
    case Entries(entries) =>
      var batch := BatchOf(entries);
      var dim := Atoi(args[1]).value;
      var r := VMSet(w.vectors, now, args[0], dim, batch);
      if r.1 < |batch| then (w.(vectors := r.0), Error)
      else
        (World(w.kv, r.0, InsertAll(w.indexes, args[0], batch, Reached(fate, |batch|))),
         if Dying(w.indexes, args[0], fate, |batch|) then Silence else Integer(r.1))
  }

  // ---------- indexes and namespaces ----------

  datatype Params = Params(m: int, efConstruction: int, efSearch: int)

  /** The parameters of VINDEX CREATE from position i on. */
  function CreateParams(args: seq<string>, i: nat, p: Params): Option<Params>
    requires i <= |args|
    decreases |args| - i
  {
    if i == |args| then Some(p)
    else if i + 1 >= |args| then None
    else
      var value := Atoi(args[i + 1]);
      if value == None || value.value <= 0 then None
      else
        match SetParam(p, ToUpper(args[i]), value.value)
        case None => None
        case Some(q) => CreateParams(args, i + 2, q)
  }

  function SetParam(p: Params, name: string, value: int): Option<Params> {
    if name == "M" then Some(p.(m := value))
    else if name == "EF_CONSTRUCTION" then Some(p.(efConstruction := value))
    else if name == "EF_SEARCH" then Some(p.(efSearch := value))
    else None
  }

  function AsIndexed(live: map<string, VecEntry>): map<string, Indexed> {
    map id | id in live :: Indexed(live[id].vector, live[id].metadata)
  }

  /** The unexpired vectors of a namespace, as an index holds them. */
  function Loaded(v: Vectors, now: Time, ns: string): map<string, Indexed> {
    AsIndexed(VSnapshot(v, now, ns))
  }

  /** What of the bulk load gets into the index. */
  function LoadedBy(fate: Fate, all: map<string, Indexed>): map<string, Indexed> {
    if fate.Dies? then all - fate.left else all
  }

  /** The index is published before it is loaded. */
  function HandleCreate(w: World, now: Time, args: seq<string>, fate: Fate): (World, Response)
    requires |args| >= 2
  {
    match CreateParams(args, 2, Params(16, 200, 100))
    case None => (w, Error)
    case Some(p) =>
      if args[1] in w.indexes then (w, Error)
      else
        var all := Loaded(w.vectors, now, args[1]);
        var idx := IndexState(p.m, p.efConstruction, p.efSearch, LoadedBy(fate, all));
        (w.(indexes := w.indexes[args[1] := idx]), if fate.Dies? && all != map[] then Silence else Okay)
  }

  function HandleSetEf(w: World, args: seq<string>, fate: Fate): (World, Response)
    requires |args| >= 2
  {
    if |args| != 3 then (w, Error)
    else
      var ef := Atoi(args[2]);
      if ef == None || ef.value <= 0 || args[1] !in w.indexes then (w, Error)
      else if Dying(w.indexes, args[1], fate, 1) then (w, Silence)
      else (w.(indexes := w.indexes[args[1] := w.indexes[args[1]].(ef := ef.value)]), Okay)
  }

  function HandleVIndex(w: World, now: Time, args: seq<string>, fate: Fate): (World, Response) {
    if |args| < 2 then (w, Error) else
      var sub := ToUpper(args[0]);
      if sub == "CREATE" then HandleCreate(w, now, args, fate)
      else if sub == "DROP" then
        if args[1] !in w.indexes then (w, Error) else (w.(indexes := w.indexes - {args[1]}), Okay)
      else if sub == "INFO" then
        (w, if args[1] !in w.indexes then Error else if Dying(w.indexes, args[1], fate, 1) then Silence else Data)
      else if sub == "SET_EF" then HandleSetEf(w, args, fate)
      else (w, Error)
  }

  function HandleVExpire(w: World, now: Time, args: seq<string>): (World, Response) {
    if |args| != 2 then (w, Error) else
      match Seconds(args[1])
      case None => (w, Error)
      case Some(ttl) => var r := VExpire(w.vectors, now, args[0], ttl); (w.(vectors := r.0), Truth(r.1))
  }

  function HandleVNS(w: World, args: seq<string>): (World, Response) {
    if args == [] then (w, Error) else
      var sub := ToUpper(args[0]);
      if sub == "DROP" then
        if |args| != 2 then (w, Error)
        else
          var r := VNSDrop(w.vectors, args[1]);
          (World(w.kv, r.0, w.indexes - {args[1]}), Truth(r.1))
      else if sub == "LIST" then (w, Data)
      else (w, Error)
  }

  // ---------- dispatch ----------

  /** ExecuteCommand, for a client that is allowed in or is not, and a handler of the given fate. */
  function Execute(n: Numerals, w: World, now: Time, allowed: bool, cmd: Command, fate: Fate): (World, Response) {
    var name := ToUpper(cmd.name);
    if !allowed && name != "AUTH" then (w, Error)
    else if name == "SET" then HandleSet(w, now, cmd.args)
    else if name == "GET" then HandleGet(w, now, cmd.args)
    else if name == "DEL" then HandleDel(w, cmd.args)
    else if name == "EXPIRE" then HandleExpire(w, now, cmd.args)
    else if name == "TTL" then HandleTTL(w, now, cmd.args)
    else if name == "VSET" then HandleVSet(n, w, now, cmd.args, fate)
    else if name == "VGET" then HandleVGet(w, now, cmd.args)
    else if name == "VDEL" then HandleVDel(w, cmd.args, fate)
    else if name == "VCOUNT" then HandleVCount(w, now, cmd.args)
    else if name == "VSIMILARITY" then HandleVSimilarity(n, w, cmd.args, fate)
    else if name == "VINDEX" then HandleVIndex(w, now, cmd.args, fate)
    else if name == "VMSET" then HandleVMSet(n, w, now, cmd.args, fate)
    else if name == "VEXPIRE" then HandleVExpire(w, now, cmd.args)
    else if name == "VNS" then HandleVNS(w, cmd.args)
    else if name == "PING" || name == "INFO" || name == "AUTH" then (w, Data)
    else (w, Error)
  }

  const MUTATIVE := ["SET", "DEL", "EXPIRE", "VSET", "VDEL", "VINDEX", "VMSET", "VEXPIRE", "VNS"]

  predicate IsMutative(name: string) {
    name in MUTATIVE
  }

  /** What dispatch writes to the log. */
  function Logged(n: Numerals, w: World, now: Time, allowed: bool, cmd: Command, fate: Fate): seq<Command> {
    var r := Execute(n, w, now, allowed, cmd, fate).1;
    if !r.Error? && !r.Silence? && IsMutative(cmd.name) then [cmd] else []
  }

  function Swept(w: World, now: Time): World {
    World(LiveKeys(w.kv, now), SweptVectors(w.vectors, now), w.indexes)
  }
}
