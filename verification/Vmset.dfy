/** The batch grammar of VMSET: ingest_batch of nearby_memory.py:270-325 writes it, the parser
    of handlers_vector.go:255-327 reads it.  Tokens are taken as the tokenizer delivers them. */
module Vmset {
  import opened Text
  import opened Spans
  import opened Decimal
  import opened CommandText

  /** How numbers are printed with six decimals, and parsed as 32-bit and as 64-bit floats. */
  datatype Numerals = Numerals(show: real -> string, read32: string -> Option<real>, reads64: string -> bool)

  /** An item of a batch; Python dictionaries keep their order and have distinct keys. */
  datatype Item = Item(id: string, vector: seq<real>, metadata: seq<(string, string)>)

  datatype Entry = Entry(id: string, vector: seq<real>, metadata: Option<map<string, string>>)

  datatype Failure =
    | WrongNumberOfArguments
    | InvalidDimension
    | InvalidCount
    | NotEnoughFloats(id: string)
    | InvalidFloat(id: string, position: nat)
    | WrongCount(got: nat)
    | Panic

  datatype Decoded = Entries(entries: seq<Entry>) | Failed(failure: Failure)

  datatype EntryReading = Got(entry: Entry, next: nat) | Bad(failure: Failure)

  /** The most entries, of 48 bytes each, that make allocates on a 64-bit platform without a panic. */
  const MAX_ENTRIES := 0x1_0000_0000_0000 / 48

  // ---------- the writer ----------

  function PairTokens<T>(pairs: seq<(T, T)>, from: nat): (r: seq<T>)
    requires from <= |pairs|
    ensures |r| == 2 * (|pairs| - from)
    decreases |pairs| - from
  {
    if from == |pairs| then [] else [pairs[from].0, pairs[from].1] + PairTokens(pairs, from + 1)
  }

  function FloatTokens(n: Numerals, v: seq<real>): (r: seq<string>)
    ensures |r| == |v| && forall j :: 0 <= j < |v| ==> r[j] == n.show(v[j])
  {
    seq(|v|, j requires 0 <= j < |v| => n.show(v[j]))
  }

  function MetaTokens(pairs: seq<(string, string)>): seq<string> {
    if pairs == [] then [] else ["META"] + PairTokens(pairs, 0)
  }

  function ItemTokens(n: Numerals, item: Item): seq<string> {
    [item.id] + (FloatTokens(n, item.vector) + MetaTokens(item.metadata))
  }

  /** The tokens of the items from position k on. */
  function Body(n: Numerals, items: seq<Item>, k: nat): seq<string>
    requires k <= |items|
    decreases |items| - k
  {
    if k == |items| then [] else ItemTokens(n, items[k]) + Body(n, items, k + 1)
  }

  function Args(n: Numerals, namespace: string, items: seq<Item>): seq<string>
    requires items != []
  {
    [namespace, Itoa(|items[0].vector|), Itoa(|items|)] + Body(n, items, 0)
  }

  /** The arguments of one VMSET command, or nothing if the dimensions differ. */
  method EncodeChunk(n: Numerals, namespace: string, chunk: seq<Item>) returns (args: Option<seq<string>>)
    requires chunk != []
    ensures args == if SameDimension(chunk) then Some(Args(n, namespace, chunk)) else None
  {
    hide ItemTokens;
    var dim := |chunk[0].vector|;
    var head := [namespace, Itoa(dim), Itoa(|chunk|)];
    var parts := head;
    ghost var goal := head + Body(n, chunk, 0);
    for k := 0 to |chunk|
      invariant parts + Body(n, chunk, k) == goal
      invariant forall i :: 0 <= i < k ==> |chunk[i].vector| == dim
    {
      var item := chunk[k];
      if |item.vector| != dim {
        return None;
      }
      var tokens := ItemTokens(n, item);
      Assoc(parts, tokens, Body(n, chunk, k + 1));
      parts := parts + tokens;
    }
    assert parts + [] == parts;
    return Some(parts);
  }

  ghost predicate SameDimension(items: seq<Item>) {
    forall i, j :: 0 <= i < |items| && 0 <= j < |items| ==> |items[i].vector| == |items[j].vector|
  }

  function Concat(chunks: seq<seq<Item>>): seq<Item> {
    if chunks == [] then [] else Concat(chunks[..|chunks| - 1]) + chunks[|chunks| - 1]
  }

  /** The batch cut into chunks of chunkSize, the last perhaps shorter: nothing lost, nothing twice. */
  method Chunk(items: seq<Item>, chunkSize: nat) returns (chunks: seq<seq<Item>>)
    requires chunkSize > 0
    ensures Concat(chunks) == items
    ensures forall c :: 0 <= c < |chunks| ==> 0 < |chunks[c]| <= chunkSize
    ensures forall c :: 0 <= c < |chunks| - 1 ==> |chunks[c]| == chunkSize
  {
    chunks := [];
    var i := 0;
    while i < |items|
      invariant 0 <= i && Concat(chunks) == items[..if i < |items| then i else |items|]
      invariant forall c :: 0 <= c < |chunks| ==> 0 < |chunks[c]| <= chunkSize
      invariant forall c :: 0 <= c < |chunks| && (c < |chunks| - 1 || i < |items|) ==> |chunks[c]| == chunkSize
      decreases |items| - i
    {
      var end := if i + chunkSize < |items| then i + chunkSize else |items|;
      ghost var before := chunks;
      chunks := chunks + [items[i..end]];
      assert chunks[..|chunks| - 1] == before;
      i := i + chunkSize;
    }
    assert items[..|items|] == items;
  }

  // ---------- the parser ----------

  function ReadFloats(n: Numerals, args: seq<string>, pos: nat, dim: nat): (v: seq<real>)
    requires pos + dim <= |args|
    ensures |v| <= dim
  {
    if dim == 0 then [] else
      var front := ReadFloats(n, args, pos, dim - 1);
      var last := n.read32(args[pos + dim - 1]);
      if |front| == dim - 1 && last.Some? then front + [last.value] else front
  }

  /** Whether the pairs stop here, because a float suggests that a new entry has begun. */
  predicate Stops(n: Numerals, args: seq<string>, dim: nat, more: bool, i: nat)
    requires i + 1 < |args|
  {
    more && i + 1 + dim <= |args| && n.reads64(args[i + 1])
  }

  function ReadPairs(n: Numerals, args: seq<string>, dim: nat, more: bool, i: nat, pairs: seq<(string, string)>)
    : (r: (seq<(string, string)>, nat))
    requires i <= |args|
    ensures i <= r.1 <= |args|
    decreases |args| - i
  {
    if i + 1 < |args| && !Stops(n, args, dim, more, i)
    then ReadPairs(n, args, dim, more, i + 2, pairs + [(args[i], args[i + 1])])
    else (pairs, i)
  }

  function MapOf(pairs: seq<(string, string)>): map<string, string> {
    if pairs == [] then map[] else MapOf(pairs[..|pairs| - 1])[pairs[|pairs| - 1].0 := pairs[|pairs| - 1].1]
  }

  function Metadata(pairs: seq<(string, string)>): Option<map<string, string>> {
    if pairs == [] then None else Some(MapOf(pairs))
  }

  function ReadMeta(n: Numerals, args: seq<string>, dim: nat, more: bool, i: nat): (r: (seq<(string, string)>, nat))
    requires i <= |args|
    ensures i <= r.1 <= |args|
  {
    if i < |args| && ToUpper(args[i]) == "META" then ReadPairs(n, args, dim, more, i + 1, []) else ([], i)
  }

  /** The sum of a position and a huge dimension overflows, passes the test of the length, and the
      vector cannot be allocated. */
  function TooShort(id: string, end: nat): Failure {
    if end > MAX_INT then Panic else NotEnoughFloats(id)
  }

  function ReadEntry(n: Numerals, args: seq<string>, dim: nat, more: bool, i: nat): (r: EntryReading)
    requires i < |args|
    ensures r.Got? ==> i < r.next <= |args|
  {
    var id := args[i];
    if i + 1 + dim > |args| then Bad(TooShort(id, i + 1 + dim))
    else
      var vec := ReadFloats(n, args, i + 1, dim);
      if |vec| < dim then Bad(InvalidFloat(id, |vec|))
      else
        var meta := ReadMeta(n, args, dim, more, i + 1 + dim);
        Got(Entry(id, vec, Metadata(meta.0)), meta.1)
  }

  function ReadAll(n: Numerals, args: seq<string>, dim: nat, count: nat, i: nat, entries: seq<Entry>): Decoded
    requires i <= |args|
    decreases |args| - i
  {
    if |entries| < count && i < |args| then
      match ReadEntry(n, args, dim, |entries| + 1 < count, i)
      case Got(entry, next) => ReadAll(n, args, dim, count, next, entries + [entry])
      case Bad(failure) => Failed(failure)
    else if |entries| != count then Failed(WrongCount(|entries|))
    else Entries(entries)
  }

  function Decode(n: Numerals, args: seq<string>): Decoded {
    if |args| < 4 then Failed(WrongNumberOfArguments) else
      var dim := Atoi(args[1]);
      if dim == None || dim.value <= 0 then Failed(InvalidDimension) else
        var count := Atoi(args[2]);
        if count == None || count.value <= 0 then Failed(InvalidCount)
        else if count.value > MAX_ENTRIES then Failed(Panic)
        else ReadAll(n, args, dim.value, count.value, 3, [])
  }

  lemma {:induction false} FloatsStop(n: Numerals, args: seq<string>, pos: nat, j: nat, dim: nat)
    requires j < dim && pos + dim <= |args| && |ReadFloats(n, args, pos, j)| == j && n.read32(args[pos + j]) == None
    ensures ReadFloats(n, args, pos, dim) == ReadFloats(n, args, pos, j)
    decreases dim
  {
    if j < dim - 1 {
      FloatsStop(n, args, pos, j, dim - 1);
    }
  }

  method ParseVector(n: Numerals, args: seq<string>, pos: nat, dim: nat) returns (vec: seq<real>)
    requires pos + dim <= |args|
    ensures vec == ReadFloats(n, args, pos, dim)
  {
    vec := [];
    for j := 0 to dim
      invariant vec == ReadFloats(n, args, pos, j) && |vec| == j
    {
      var f := n.read32(args[pos + j]);
      if f == None {
        FloatsStop(n, args, pos, j, dim);
        return;
      }
      vec := vec + [f.value];
    }
  }

  method ParsePairs(n: Numerals, args: seq<string>, dim: nat, more: bool, i0: nat)
    returns (pairs: seq<(string, string)>, i: nat)
    requires i0 <= |args|
    ensures (pairs, i) == ReadPairs(n, args, dim, more, i0, [])
  {
    i, pairs := i0, [];
    while i + 1 < |args|
      invariant i <= |args| && ReadPairs(n, args, dim, more, i, pairs) == ReadPairs(n, args, dim, more, i0, [])
    {
      if more && i + 1 + dim <= |args| {
        if n.reads64(args[i + 1]) {
          break;
        }
      }
      pairs := pairs + [(args[i], args[i + 1])];
      i := i + 2;
    }
  }

  method ParseEntry(n: Numerals, args: seq<string>, dim: nat, more: bool, i0: nat) returns (r: EntryReading)
    requires i0 < |args|
    ensures r == ReadEntry(n, args, dim, more, i0)
  {
    var id, i := args[i0], i0 + 1;
    if i + dim > |args| {
      return Bad(if i + dim > MAX_INT then Panic else NotEnoughFloats(id));
    }
    var vec := ParseVector(n, args, i, dim);
    if |vec| < dim {
      return Bad(InvalidFloat(id, |vec|));
    }
    i := i + dim;
    var pairs: seq<(string, string)> := [];
    if i < |args| && ToUpper(args[i]) == "META" {
      pairs, i := ParsePairs(n, args, dim, more, i + 1);
    }
    r := Got(Entry(id, vec, Metadata(pairs)), i);
  }

  /** The entries of a VMSET command, as handleVMSet parses them. */
  method ParseArgs(n: Numerals, args: seq<string>) returns (r: Decoded)
    ensures r == Decode(n, args)
  {
    if |args| < 4 {
      return Failed(WrongNumberOfArguments);
    }
    var dim := Atoi(args[1]);
    if dim == None || dim.value <= 0 {
      return Failed(InvalidDimension);
    }
    var count := Atoi(args[2]);
    if count == None || count.value <= 0 {
      return Failed(InvalidCount);
    }
    if count.value > MAX_ENTRIES {
      return Failed(Panic);
    }
    var entries: seq<Entry> := [];
    var i: nat := 3;
    while |entries| < count.value && i < |args|
      invariant i <= |args|
      invariant ReadAll(n, args, dim.value, count.value, i, entries) == Decode(n, args)
      decreases |args| - i
    {
      var entry := ParseEntry(n, args, dim.value, |entries| + 1 < count.value, i);
      if entry.Bad? {
        return Failed(entry.failure);
      }
      entries, i := entries + [entry.entry], entry.next;
    }
    if |entries| != count.value {
      return Failed(WrongCount(|entries|));
    }
    return Entries(entries);
  }

  // ---------- what is read of one item ----------

  ghost predicate Printable(n: Numerals, x: real) {
    n.read32(n.show(x)).Some? && n.reads64(n.show(x)) && ToUpper(n.show(x)) != "META"
  }

  ghost predicate DistinctKeys(pairs: seq<(string, string)>) {
    forall i, j :: 0 <= i < j < |pairs| ==> pairs[i].0 != pairs[j].0
  }

  /** A batch that ingest_batch may send: one dimension, printable numbers, dictionaries. */
  ghost predicate Sendable(n: Numerals, items: seq<Item>, dim: nat) {
    && items != [] && 0 < dim <= MAX_INT && |items| <= MAX_ENTRIES
    && forall k :: 0 <= k < |items| ==>
         && |items[k].vector| == dim && DistinctKeys(items[k].metadata)
         && forall j :: 0 <= j < dim ==> Printable(n, items[k].vector[j])
  }

  /** The components as they arrive, rounded to what is printed. */
  function Rounded(n: Numerals, v: seq<real>): (r: seq<real>)
    ensures |r| == |v|
  {
    seq(|v|, j requires 0 <= j < |v| => var x := n.read32(n.show(v[j])); if x.Some? then x.value else 0.0)
  }

  function Image(n: Numerals, item: Item): Entry {
    Entry(item.id, Rounded(n, item.vector), Metadata(item.metadata))
  }

  function Images(n: Numerals, items: seq<Item>): (r: seq<Entry>)
    ensures |r| == |items| && forall k :: 0 <= k < |items| ==> r[k] == Image(n, items[k])
  {
    seq(|items|, k requires 0 <= k < |items| => Image(n, items[k]))
  }

  lemma {:induction false} FloatsAreRead(n: Numerals, args: seq<string>, pos: nat, v: seq<real>, k: nat)
    requires At(args, pos, FloatTokens(n, v)) && k <= |v| && forall j :: 0 <= j < |v| ==> Printable(n, v[j])
    ensures ReadFloats(n, args, pos, k) == Rounded(n, v)[..k]
  {
    if k > 0 {
      FloatsAreRead(n, args, pos, v, k - 1);
      assert args[pos + (k - 1)] == FloatTokens(n, v)[k - 1];
      assert Printable(n, v[k - 1]);
      assert Rounded(n, v)[..k] == Rounded(n, v)[..k - 1] + [Rounded(n, v)[k - 1]];
    }
  }

  lemma {:induction false} PairToken<T>(pairs: seq<(T, T)>, from: nat, j: nat)
    requires from <= j < |pairs|
    ensures PairTokens(pairs, from)[2 * (j - from)] == pairs[j].0
      && PairTokens(pairs, from)[2 * (j - from) + 1] == pairs[j].1
    decreases j - from
  {
    if from < j {
      PairToken(pairs, from + 1, j);
      var rest := PairTokens(pairs, from + 1);
      assert PairTokens(pairs, from)[2 * (j - from)] == rest[2 * (j - from) - 2];
      assert PairTokens(pairs, from)[2 * (j - from) + 1] == rest[2 * (j - from) - 1];
    }
  }

  lemma PairAt<T>(args: seq<T>, pos: nat, pairs: seq<(T, T)>, j: nat)
    requires At(args, pos, PairTokens(pairs, 0)) && j < |pairs|
    ensures pos + 2 * j + 1 < |args| && args[pos + 2 * j] == pairs[j].0 && args[pos + 2 * j + 1] == pairs[j].1
  {
    hide PairTokens, At;
    var tokens, m := PairTokens(pairs, 0), 2 * j;
    PairToken(pairs, 0, j);
    assert tokens[m] == pairs[j].0 && tokens[m + 1] == pairs[j].1;
    AtIndex(args, pos, tokens, m);
    AtIndex(args, pos, tokens, m + 1);
  }

  ghost predicate Goes(n: Numerals, args: seq<string>, dim: nat, more: bool, i: nat) {
    i + 1 < |args| && !Stops(n, args, dim, more, i)
  }

  /** The pairs are taken one by one up to the first that stops the loop. */
  lemma {:induction false} PairsUpTo(n: Numerals, args: seq<string>, dim: nat, more: bool, pos: nat,
                                     pairs: seq<(string, string)>, k: nat, m: nat)
    requires At(args, pos, PairTokens(pairs, 0)) && k <= m <= |pairs|
    requires forall j: nat :: k <= j < m ==> Goes(n, args, dim, more, pos + 2 * j)
    requires !Goes(n, args, dim, more, pos + 2 * m)
    ensures ReadPairs(n, args, dim, more, pos + 2 * k, pairs[..k]) == (pairs[..m], pos + 2 * m)
    decreases m - k
  {
    if k < m {
      PairAt(args, pos, pairs, k);
      PairsUpTo(n, args, dim, more, pos, pairs, k + 1, m);
      assert Goes(n, args, dim, more, pos + 2 * k);
      assert pairs[..k + 1] == pairs[..k] + [(args[pos + 2 * k], args[pos + 2 * k + 1])];
    }
  }

  lemma {:induction false} PairsKeep(n: Numerals, args: seq<string>, dim: nat, more: bool, i: nat,
                                     pairs: seq<(string, string)>)
    requires i <= |args|
    ensures var r := ReadPairs(n, args, dim, more, i, pairs); |r.0| >= |pairs| && (|r.0| == |pairs| ==> r == (pairs, i))
    decreases |args| - i
  {
    if i + 1 < |args| && !Stops(n, args, dim, more, i) {
      PairsKeep(n, args, dim, more, i + 2, pairs + [(args[i], args[i + 1])]);
    }
  }

  /** What follows an item: nothing, or an item that the parser can tell from more metadata. */
  ghost predicate Ends(n: Numerals, args: seq<string>, dim: nat, more: bool, end: nat) {
    if more then end + 1 + dim <= |args| && end + 1 < |args| && n.reads64(args[end + 1]) else end == |args|
  }

  /** A metadata value that looks like a float ends the metadata before its pair. */
  ghost predicate NoFloats(n: Numerals, pairs: seq<(string, string)>) {
    forall j :: 0 <= j < |pairs| ==> !n.reads64(pairs[j].1)
  }

  lemma MetaIsUpper()
    ensures ToUpper("META") == "META"
  {
    var s := ToUpper("META");
    assert s[0] == 'M' && s[1] == 'E' && s[2] == 'T' && s[3] == 'A';
  }

  lemma MetaIsRead(n: Numerals, args: seq<string>, dim: nat, more: bool, pos: nat, pairs: seq<(string, string)>)
    requires At(args, pos, MetaTokens(pairs)) && pairs != []
    requires Ends(n, args, dim, more, pos + |MetaTokens(pairs)|) && (more ==> NoFloats(n, pairs))
    ensures ReadMeta(n, args, dim, more, pos) == (pairs, pos + |MetaTokens(pairs)|)
  {
    AtConcat(args, pos, ["META"], PairTokens(pairs, 0));
    AtOne(args, pos, "META");
    MetaIsUpper();
    forall j: nat | 0 <= j < |pairs| ensures Goes(n, args, dim, more, pos + 1 + 2 * j) {
      PairAt(args, pos + 1, pairs, j);
    }
    PairsUpTo(n, args, dim, more, pos + 1, pairs, 0, |pairs|);
    assert pairs[..|pairs|] == pairs;
  }

  /** Reading an item back, up to its metadata. */
  lemma VectorIsRead(n: Numerals, args: seq<string>, dim: nat, more: bool, pos: nat, item: Item)
    requires At(args, pos, ItemTokens(n, item)) && |item.vector| == dim && pos < |args|
    requires forall j :: 0 <= j < dim ==> Printable(n, item.vector[j])
    ensures At(args, pos + 1 + dim, MetaTokens(item.metadata)) && args[pos] == item.id
    ensures var meta := ReadMeta(n, args, dim, more, pos + 1 + dim);
      ReadEntry(n, args, dim, more, pos) == Got(Entry(item.id, Rounded(n, item.vector), Metadata(meta.0)), meta.1)
  {
    var floats := FloatTokens(n, item.vector);
    AtConcat(args, pos, [item.id], floats + MetaTokens(item.metadata));
    AtConcat(args, pos + 1, floats, MetaTokens(item.metadata));
    AtOne(args, pos, item.id);
    FloatsAreRead(n, args, pos + 1, item.vector, dim);
    assert Rounded(n, item.vector)[..dim] == Rounded(n, item.vector);
  }

  lemma ItemIsRead(n: Numerals, args: seq<string>, dim: nat, more: bool, pos: nat, item: Item)
    requires At(args, pos, ItemTokens(n, item)) && |item.vector| == dim && pos < |args|
    requires forall j :: 0 <= j < dim ==> Printable(n, item.vector[j])
    requires var end := pos + |ItemTokens(n, item)|;
      && Ends(n, args, dim, more, end)
      && (more && item.metadata == [] ==> ToUpper(args[end]) != "META")
    requires more ==> NoFloats(n, item.metadata)
    ensures ReadEntry(n, args, dim, more, pos) == Got(Image(n, item), pos + |ItemTokens(n, item)|)
  {
    VectorIsRead(n, args, dim, more, pos, item);
    if item.metadata != [] {
      MetaIsRead(n, args, dim, more, pos + 1 + dim, item.metadata);
    }
  }

  // ---------- the whole batch ----------

  /** The parser can tell item k from the one after it. */
  ghost predicate Separated(n: Numerals, items: seq<Item>, k: nat) {
    k + 1 < |items| ==>
      if items[k].metadata == [] then ToUpper(items[k + 1].id) != "META" else NoFloats(n, items[k].metadata)
  }

  /** The arguments end with the tokens of the items from k on. */
  ghost predicate Tail(n: Numerals, args: seq<string>, items: seq<Item>, k: nat)
    requires k <= |items|
  {
    |Body(n, items, k)| <= |args| && At(args, |args| - |Body(n, items, k)|, Body(n, items, k))
  }

  /** Where item k begins. */
  ghost function Start(n: Numerals, args: seq<string>, items: seq<Item>, k: nat): (pos: nat)
    requires k <= |items| && Tail(n, args, items, k)
    ensures pos <= |args|
  {
    |args| - |Body(n, items, k)|
  }

  lemma NextTail(n: Numerals, args: seq<string>, items: seq<Item>, k: nat)
    requires k < |items| && Tail(n, args, items, k)
    ensures Tail(n, args, items, k + 1)
    ensures Start(n, args, items, k + 1) == Start(n, args, items, k) + |ItemTokens(n, items[k])|
    ensures At(args, Start(n, args, items, k), ItemTokens(n, items[k])) && Start(n, args, items, k) < |args|
  {
    hide ItemTokens;
    ItemIsNotEmpty(n, items[k]);
    AtConcat(args, |args| - |Body(n, items, k)|, ItemTokens(n, items[k]), Body(n, items, k + 1));
  }

  lemma ItemIsNotEmpty(n: Numerals, item: Item)
    ensures |ItemTokens(n, item)| > |item.vector|
  {
  }

  lemma {:induction false} TailsAll(n: Numerals, args: seq<string>, items: seq<Item>, k: nat)
    requires Tail(n, args, items, 0) && k <= |items|
    ensures Tail(n, args, items, k)
  {
    hide ItemTokens, At;
    if k > 0 {
      TailsAll(n, args, items, k - 1);
      NextTail(n, args, items, k - 1);
    }
  }

  /** An item begins with its id and its first component. */
  lemma ItemBegins(n: Numerals, args: seq<string>, pos: nat, item: Item)
    requires At(args, pos, ItemTokens(n, item)) && item.vector != []
    ensures pos + |item.vector| + 1 <= |args|
    ensures args[pos] == item.id && args[pos + 1] == n.show(item.vector[0])
  {
    var floats := FloatTokens(n, item.vector);
    AtConcat(args, pos, [item.id], floats + MetaTokens(item.metadata));
    AtConcat(args, pos + 1, floats, MetaTokens(item.metadata));
    AtOne(args, pos, item.id);
    assert args[pos + 1 + 0] == floats[0];
  }

  lemma ItemEnds(n: Numerals, args: seq<string>, items: seq<Item>, dim: nat, k: nat)
    requires Sendable(n, items, dim) && k < |items| && Tail(n, args, items, k)
    ensures Tail(n, args, items, k + 1)
    ensures var end := Start(n, args, items, k + 1);
      && Ends(n, args, dim, k + 1 < |items|, end)
      && (k + 1 < |items| ==> args[end] == items[k + 1].id && args[end + 1] == n.show(items[k + 1].vector[0]))
  {
    hide ItemTokens, At;
    NextTail(n, args, items, k);
    if k + 1 < |items| {
      NextTail(n, args, items, k + 1);
      ItemBegins(n, args, Start(n, args, items, k + 1), items[k + 1]);
      assert Printable(n, items[k + 1].vector[0]);
    }
  }

  lemma StepIsRead(n: Numerals, args: seq<string>, items: seq<Item>, dim: nat, k: nat)
    requires Sendable(n, items, dim) && k < |items| && Tail(n, args, items, k) && Separated(n, items, k)
    ensures Tail(n, args, items, k + 1) && Start(n, args, items, k) < |args|
    ensures ReadEntry(n, args, dim, k + 1 < |items|, Start(n, args, items, k))
         == Got(Image(n, items[k]), Start(n, args, items, k + 1))
  {
    hide ItemTokens, At, ReadEntry, Image, Printable;
    NextTail(n, args, items, k);
    ItemEnds(n, args, items, dim, k);
    ItemIsRead(n, args, dim, k + 1 < |items|, Start(n, args, items, k), items[k]);
  }

  lemma ReadAllNext(n: Numerals, args: seq<string>, dim: nat, count: nat, i: nat, entries: seq<Entry>, entry: Entry,
                    next: nat)
    requires |entries| < count && i < |args| && ReadEntry(n, args, dim, |entries| + 1 < count, i) == Got(entry, next)
    ensures next <= |args|
    ensures ReadAll(n, args, dim, count, i, entries) == ReadAll(n, args, dim, count, next, entries + [entry])
  {
    hide ReadEntry;
  }

  /** As long as the items are separated they are read one after another. */
  lemma {:induction false} PrefixIsRead(n: Numerals, args: seq<string>, items: seq<Item>, dim: nat, k: nat)
    requires Sendable(n, items, dim) && k <= |items| && Tail(n, args, items, 0)
    requires forall j :: 0 <= j < k ==> Separated(n, items, j)
    ensures Tail(n, args, items, k)
    ensures ReadAll(n, args, dim, |items|, Start(n, args, items, 0), [])
         == ReadAll(n, args, dim, |items|, Start(n, args, items, k), Images(n, items)[..k])
  {
    hide ReadAll, ReadEntry, Tail, Sendable, Separated, Image, Body;
    if k > 0 {
      PrefixIsRead(n, args, items, dim, k - 1);
      StepIsRead(n, args, items, dim, k - 1);
      var images := Images(n, items);
      assert images[..k] == images[..k - 1] + [images[k - 1]];
      ReadAllNext(n, args, dim, |items|, Start(n, args, items, k - 1), images[..k - 1], images[k - 1],
                  Start(n, args, items, k));
    }
  }

  lemma BodyIsRead(n: Numerals, args: seq<string>, items: seq<Item>, dim: nat)
    requires Sendable(n, items, dim) && Tail(n, args, items, 0)
    requires forall k :: 0 <= k < |items| ==> Separated(n, items, k)
    ensures ReadAll(n, args, dim, |items|, Start(n, args, items, 0), []) == Entries(Images(n, items))
  {
    hide ReadEntry, Sendable, Separated, Image;
    PrefixIsRead(n, args, items, dim, |items|);
    assert Images(n, items)[..|items|] == Images(n, items);
  }

  // ---------- what goes wrong otherwise ----------

  lemma {:induction false} ReadAllKeeps(n: Numerals, args: seq<string>, dim: nat, count: nat, i: nat,
                                        entries: seq<Entry>)
    requires i <= |args|
    ensures var r := ReadAll(n, args, dim, count, i, entries); r.Entries? ==> entries <= r.entries
    decreases |args| - i
  {
    hide ReadEntry;
    if |entries| < count && i < |args| {
      var r := ReadEntry(n, args, dim, |entries| + 1 < count, i);
      if r.Got? {
        ReadAllKeeps(n, args, dim, count, r.next, entries + [r.entry]);
      }
    }
  }

  /** One wrong entry makes the batch wrong. */
  lemma WrongEntry(n: Numerals, args: seq<string>, dim: nat, count: nat, i: nat, entries: seq<Entry>, goal: seq<Entry>)
    requires i <= |args| && |entries| < |goal| == count
    requires i < |args| ==>
      var r := ReadEntry(n, args, dim, |entries| + 1 < count, i); r.Got? ==> r.entry != goal[|entries|]
    ensures ReadAll(n, args, dim, count, i, entries) != Entries(goal)
  {
    hide ReadEntry;
    if i < |args| {
      var r := ReadEntry(n, args, dim, |entries| + 1 < count, i);
      if r.Got? {
        ReadAllKeeps(n, args, dim, count, r.next, entries + [r.entry]);
      }
    }
  }

  lemma {:induction false} MapOfKeys(pairs: seq<(string, string)>, k: string)
    ensures k in MapOf(pairs) <==> exists j :: 0 <= j < |pairs| && pairs[j].0 == k
  {
    if pairs != [] {
      var front := pairs[..|pairs| - 1];
      MapOfKeys(front, k);
      if j :| 0 <= j < |front| && front[j].0 == k {
        assert pairs[j].0 == k;
      }
    }
  }

  /** Metadata cut short is different metadata. */
  lemma CutDiffers(pairs: seq<(string, string)>, m: nat)
    requires m < |pairs| && DistinctKeys(pairs)
    ensures Metadata(pairs[..m]) != Metadata(pairs)
  {
    var k := pairs[m].0;
    MapOfKeys(pairs, k);
    MapOfKeys(pairs[..m], k);
  }

  lemma FirstFloat(n: Numerals, pairs: seq<(string, string)>) returns (m: nat)
    requires !NoFloats(n, pairs)
    ensures m < |pairs| && n.reads64(pairs[m].1) && forall j :: 0 <= j < m ==> !n.reads64(pairs[j].1)
  {
    m := 0;
    while !n.reads64(pairs[m].1)
      invariant m < |pairs| && forall j :: 0 <= j < m ==> !n.reads64(pairs[j].1)
      invariant exists j :: m <= j < |pairs| && n.reads64(pairs[j].1)
      decreases |pairs| - m
    {
      m := m + 1;
    }
  }

  lemma MetaIsCut(n: Numerals, args: seq<string>, dim: nat, pos: nat, pairs: seq<(string, string)>)
    requires At(args, pos, MetaTokens(pairs)) && !NoFloats(n, pairs) && DistinctKeys(pairs)
    requires pos + |MetaTokens(pairs)| + 1 + dim <= |args|
    ensures Metadata(ReadMeta(n, args, dim, true, pos).0) != Metadata(pairs)
  {
    AtConcat(args, pos, ["META"], PairTokens(pairs, 0));
    AtOne(args, pos, "META");
    MetaIsUpper();
    var m := FirstFloat(n, pairs);
    forall j: nat | 0 <= j < m ensures Goes(n, args, dim, true, pos + 1 + 2 * j) {
      PairAt(args, pos + 1, pairs, j);
    }
    PairAt(args, pos + 1, pairs, m);
    PairsUpTo(n, args, dim, true, pos + 1, pairs, 0, m);
    CutDiffers(pairs, m);
  }

  /** An item whose metadata holds a float-like value, with another item after it. */
  lemma FloatIsMisread(n: Numerals, args: seq<string>, items: seq<Item>, dim: nat, k: nat)
    requires Sendable(n, items, dim) && k + 1 < |items| && Tail(n, args, items, k)
    requires items[k].metadata != [] && !NoFloats(n, items[k].metadata)
    ensures Start(n, args, items, k) < |args|
    ensures var r := ReadEntry(n, args, dim, true, Start(n, args, items, k)); r.Got? ==> r.entry != Image(n, items[k])
  {
    hide ItemTokens, At, MetaTokens;
    var pos := Start(n, args, items, k);
    NextTail(n, args, items, k);
    ItemEnds(n, args, items, dim, k);
    VectorIsRead(n, args, dim, true, pos, items[k]);
    ItemSize(n, items[k]);
    MetaIsCut(n, args, dim, pos + 1 + dim, items[k].metadata);
  }

  lemma ItemSize(n: Numerals, item: Item)
    ensures |ItemTokens(n, item)| == 1 + |item.vector| + |MetaTokens(item.metadata)|
  {
  }

  /** An item without metadata, with an item after it whose id reads META. */
  lemma MetaIdIsMisread(n: Numerals, args: seq<string>, items: seq<Item>, dim: nat, k: nat)
    requires Sendable(n, items, dim) && k + 1 < |items| && Tail(n, args, items, k)
    requires items[k].metadata == [] && ToUpper(items[k + 1].id) == "META"
    ensures Start(n, args, items, k) < |args|
    ensures var r := ReadEntry(n, args, dim, true, Start(n, args, items, k));
      r.Got? ==> r.entry != Image(n, items[k]) || (r.next < |args| && args[r.next] != items[k + 1].id)
  {
    hide ItemTokens, At;
    var pos, end := Start(n, args, items, k), Start(n, args, items, k) + 1 + dim;
    NextTail(n, args, items, k);
    ItemEnds(n, args, items, dim, k);
    VectorIsRead(n, args, dim, true, pos, items[k]);
    ItemSize(n, items[k]);
    assert end == Start(n, args, items, k + 1);
    PairsKeep(n, args, dim, true, end + 1, []);
    assert Printable(n, items[k + 1].vector[0]);
  }

  lemma EntryHasId(n: Numerals, args: seq<string>, dim: nat, more: bool, i: nat)
    requires i < |args|
    ensures var r := ReadEntry(n, args, dim, more, i); r.Got? ==> r.entry.id == args[i]
  {
  }

  lemma UnseparatedIsMisread(n: Numerals, args: seq<string>, items: seq<Item>, dim: nat, k: nat)
    requires Sendable(n, items, dim) && k < |items| && Tail(n, args, items, k) && !Separated(n, items, k)
    ensures ReadAll(n, args, dim, |items|, Start(n, args, items, k), Images(n, items)[..k]) != Entries(Images(n, items))
  {
    hide ReadEntry, At, ItemTokens, Body;
    var pos, goal := Start(n, args, items, k), Images(n, items);
    if items[k].metadata != [] {
      FloatIsMisread(n, args, items, dim, k);
      WrongEntry(n, args, dim, |items|, pos, goal[..k], goal);
    } else {
      MetaIdIsMisread(n, args, items, dim, k);
      var r := ReadEntry(n, args, dim, true, pos);
      if r.Got? && r.entry == goal[k] {
        ReadAllNext(n, args, dim, |items|, pos, goal[..k], goal[k], r.next);
        EntryHasId(n, args, dim, k + 2 < |items|, r.next);
        WrongEntry(n, args, dim, |items|, r.next, goal[..k] + [goal[k]], goal);
      } else {
        WrongEntry(n, args, dim, |items|, pos, goal[..k], goal);
      }
    }
  }

  lemma FirstUnseparated(n: Numerals, items: seq<Item>) returns (k: nat)
    requires exists j :: 0 <= j < |items| && !Separated(n, items, j)
    ensures k < |items| && !Separated(n, items, k) && forall j :: 0 <= j < k ==> Separated(n, items, j)
  {
    hide Separated;
    k := 0;
    while Separated(n, items, k)
      invariant k < |items| && forall j :: 0 <= j < k ==> Separated(n, items, j)
      invariant exists j :: k <= j < |items| && !Separated(n, items, j)
      decreases |items| - k
    {
      k := k + 1;
    }
  }

  lemma BodyExactly(n: Numerals, args: seq<string>, items: seq<Item>, dim: nat)
    requires Sendable(n, items, dim) && Tail(n, args, items, 0)
    ensures ReadAll(n, args, dim, |items|, Start(n, args, items, 0), []) == Entries(Images(n, items))
       <==> forall k :: 0 <= k < |items| ==> Separated(n, items, k)
  {
    hide ReadAll, Sendable, Separated, Tail, Start, Image, Body;
    if forall k :: 0 <= k < |items| ==> Separated(n, items, k) {
      BodyIsRead(n, args, items, dim);
    } else {
      var k := FirstUnseparated(n, items);
      PrefixIsRead(n, args, items, dim, k);
      UnseparatedIsMisread(n, args, items, dim, k);
    }
  }

  lemma ArgsHead(n: Numerals, namespace: string, items: seq<Item>, dim: nat)
    requires Sendable(n, items, dim)
    ensures var args := Args(n, namespace, items);
      && Tail(n, args, items, 0) && Start(n, args, items, 0) == 3
      && Decode(n, args) == ReadAll(n, args, dim, |items|, 3, [])
  {
    hide ReadAll, ItemTokens;
    var args, body := Args(n, namespace, items), Body(n, items, 0);
    IntIsRead(dim);
    IntIsRead(|items|);
    assert |items[0].vector| == dim;
    ItemIsNotEmpty(n, items[0]);
    forall i | 0 <= i < |body| ensures args[3 + i] == body[i] {}
  }

  /** The server reads a batch back as it was sent if and only if the parser can tell every
      item from the one after it: no float-like metadata value before the last item, and no id
      spelling META after an item without metadata. */
  lemma BatchExactly(n: Numerals, namespace: string, items: seq<Item>, dim: nat)
    requires Sendable(n, items, dim)
    ensures Decode(n, Args(n, namespace, items)) == Entries(Images(n, items))
       <==> forall k :: 0 <= k < |items| ==> Separated(n, items, k)
  {
    hide ReadAll, Separated, Tail, Body, Args, Decode;
    ArgsHead(n, namespace, items, dim);
    BodyExactly(n, Args(n, namespace, items), items, dim);
  }

  // ---------- whatever the arguments ----------

  /** The entry's id stands at p, and its numbers after it; metadata only after the word. */
  ghost predicate LiesAt(n: Numerals, args: seq<string>, dim: nat, e: Entry, p: nat) {
    && p + 1 + dim <= |args| && e.id == args[p] && |e.vector| == dim
    && (forall j :: 0 <= j < dim ==> n.read32(args[p + 1 + j]) == Some(e.vector[j]))
    && (e.metadata.Some? ==> p + 1 + dim < |args| && ToUpper(args[p + 1 + dim]) == "META")
  }

  /** The entries lie one after the other, from position i on. */
  ghost predicate LieFrom(n: Numerals, args: seq<string>, dim: nat, entries: seq<Entry>, i: nat, ps: seq<nat>) {
    && |ps| == |entries| && (ps != [] ==> ps[0] == i)
    && (forall k :: 0 <= k < |ps| ==> LiesAt(n, args, dim, entries[k], ps[k]))
    && (forall k :: 0 <= k < |ps| - 1 ==> ps[k] + 1 + dim <= ps[k + 1])
  }

  lemma {:induction false} ReadIsSound(n: Numerals, args: seq<string>, pos: nat, dim: nat)
    requires pos + dim <= |args|
    ensures var v := ReadFloats(n, args, pos, dim);
      |v| == dim ==> forall j :: 0 <= j < dim ==> n.read32(args[pos + j]) == Some(v[j])
  {
    if dim > 0 {
      ReadIsSound(n, args, pos, dim - 1);
    }
  }

  lemma EntryLies(n: Numerals, args: seq<string>, dim: nat, more: bool, i: nat)
    requires i < |args|
    ensures var r := ReadEntry(n, args, dim, more, i);
      r.Got? ==> LiesAt(n, args, dim, r.entry, i) && i + 1 + dim <= r.next
  {
    hide ReadFloats, ToUpper, ReadPairs;
    if i + 1 + dim <= |args| {
      ReadIsSound(n, args, i + 1, dim);
    }
  }

  lemma {:induction false} EntriesLie(n: Numerals, args: seq<string>, dim: nat, count: nat, i: nat,
                                      entries: seq<Entry>) returns (ps: seq<nat>)
    requires i <= |args|
    ensures var r := ReadAll(n, args, dim, count, i, entries);
      r.Entries? ==>
        && |r.entries| == count && |entries| <= count && r.entries[..|entries|] == entries
        && LieFrom(n, args, dim, r.entries[|entries|..], i, ps)
    decreases |args| - i
  {
    hide LiesAt, ReadEntry;
    ps := [];
    if |entries| < count && i < |args| {
      var more := |entries| + 1 < count;
      EntryLies(n, args, dim, more, i);
      match ReadEntry(n, args, dim, more, i)
      case Bad(_) =>
      case Got(entry, next) =>
        var later := EntriesLie(n, args, dim, count, next, entries + [entry]);
        ps := [i] + later;
        var r := ReadAll(n, args, dim, count, next, entries + [entry]);
        if r.Entries? {
          assert r.entries[|entries|..] == [entry] + r.entries[|entries| + 1..];
        }
    }
  }

  /** Whatever the arguments: if they are accepted, the declared number of entries is there, each with
      its id and the declared number of readable floats, in order and apart. */
  lemma DecodeIsSound(n: Numerals, args: seq<string>) returns (ps: seq<nat>)
    requires Decode(n, args).Entries?
    ensures |args| >= 4 && Atoi(args[1]).Some? && Atoi(args[1]).value > 0
    ensures Atoi(args[2]) == Some(|Decode(n, args).entries|) && Decode(n, args).entries != []
    ensures LieFrom(n, args, Atoi(args[1]).value, Decode(n, args).entries, 3, ps)
  {
    hide Atoi, ReadAll, LieFrom;
    var dim, count := Atoi(args[1]).value, Atoi(args[2]).value;
    ps := EntriesLie(n, args, dim, count, 3, []);
    var entries := Decode(n, args).entries;
    assert entries[0..] == entries;
  }
}
