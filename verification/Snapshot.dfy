/** The binary snapshot of an index and its loader, snapshot.go.  The checksum, the bits of a
    float32, the JSON of the metadata and the bytes of a key are parameters. */
module Snapshot {
  import opened Text
  import opened Binary
  import opened Spans
  import opened HnswGraph
  import opened HnswIndex
  import opened HnswSpec
  import opened HnswInvariant
  import opened HnswInsert

  datatype Codec = Codec(
    crc: Bytes -> Word,
    bits: real -> Word, float: int -> real,
    json: Metadata -> Bytes, meta: Bytes -> Option<Metadata>,
    utf8: string -> Bytes, text: Bytes -> string)

  const MAGIC: Bytes := [72, 78, 83, 87]
  const VERSION: Byte := 1

  /** The conversion uint32(n). */
  function Trunc(n: int): Word { n % 0x1_0000_0000 }

  // ---------- the format ----------

  function LinksBytes(): seq<NodeId> -> Bytes {
    (links: seq<NodeId>) => U32(Trunc(|links|)) + WordsBytes(links)
  }

  function VectorBytes(codec: Codec, v: Vector): Bytes {
    Concat((x: real) => U32(codec.bits(x)), v)
  }

  function NodeBytes(codec: Codec): ((int, Vertex)) -> Bytes {
    (n: (int, Vertex)) =>
      U32(Trunc(n.0)) + (U32(Trunc(|n.1.links| - 1)) + (U32(Trunc(|n.1.vector|)) + (VectorBytes(codec, n.1.vector)
      + (U32(Trunc(|codec.json(n.1.metadata)|)) + (codec.json(n.1.metadata) + Concat(LinksBytes(), n.1.links))))))
  }

  function KeyBytes(codec: Codec): string -> Bytes {
    (key: string) => U32(Trunc(|codec.utf8(key)|)) + codec.utf8(key)
  }

  function WordsBytes(fields: seq<int>): Bytes {
    Concat((n: int) => U32(Trunc(n)), fields)
  }

  function Header(s: State): (fields: seq<int>)
    ensures |fields| == 6
  {
    [s.config.m, s.config.mmax0, s.config.efConstruction, s.ef, s.maxLayer, s.entryPoint]
  }

  function Numbered(g: Graph): (r: seq<(int, Vertex)>)
    ensures |r| == |g| && forall i :: 0 <= i < |g| ==> r[i] == (i, g[i])
  {
    seq(|g|, i requires 0 <= i < |g| => (i, g[i]))
  }

  function Content(codec: Codec, s: State): Bytes {
    MAGIC + ([VERSION] + (WordsBytes(Header(s)) + (U32(Trunc(|s.graph|)) + (Concat(NodeBytes(codec), Numbered(s.graph))
    + (U32(Trunc(|s.reverseMap|)) + Concat(KeyBytes(codec), s.reverseMap))))))
  }

  function File(codec: Codec, s: State): Bytes {
    Content(codec, s) + U32(codec.crc(Content(codec, s)))
  }

  // ---------- the loader ----------

  datatype Loaded = Loaded(config: Config, ef: int, nodes: seq<Option<Vertex>>, idMap: map<string, NodeId>,
                           reverseMap: seq<string>, entryPoint: NodeId, maxLayer: nat)

  datatype Loading = Restored(index: Loaded) | Rejected(error: Error)

  function WordAt(b: Bytes): nat -> Reading<int> {
    (pos: nat) => ReadU32(b, pos)
  }

  function ReadLinks(b: Bytes, pos: nat): Reading<seq<NodeId>> {
    var count :- ReadU32(b, pos);
    Repeat(WordAt(b), count.next, count.value)
  }

  function LinksAtPos(b: Bytes): nat -> Reading<seq<NodeId>> {
    (pos: nat) => ReadLinks(b, pos)
  }

  function Floats(codec: Codec, words: seq<int>): (v: Vector)
    ensures |v| == |words| && forall i :: 0 <= i < |v| ==> v[i] == codec.float(words[i])
  {
    seq(|words|, i requires 0 <= i < |words| => codec.float(words[i]))
  }

  function ReadVector(codec: Codec, b: Bytes, pos: nat): Reading<Vector> {
    var length :- ReadU32(b, pos);
    var words :- Repeat(WordAt(b), length.next, length.value);
    Got(Floats(codec, words.value), words.next)
  }

  function ReadMetadata(codec: Codec, b: Bytes, pos: nat): Reading<Metadata> {
    var length :- ReadU32(b, pos);
    var json :- ReadBytes(b, length.next, length.value);
    match codec.meta(json.value)
    case Some(metadata) => Got(metadata, json.next)
    case None => Bad(BadMetadata)
  }

  function ReadNode(codec: Codec, b: Bytes, count: nat, pos: nat): (r: Reading<(int, Vertex)>)
    ensures r.Got? ==> 0 <= r.value.0 < count
  {
    var id :- ReadU32(b, pos);
    var maxLayer :- ReadU32(b, id.next);
    var vector :- ReadVector(codec, b, maxLayer.next);
    var metadata :- ReadMetadata(codec, b, vector.next);
    var layers: nat := maxLayer.value;
    var links :- Repeat(LinksAtPos(b), metadata.next, layers + 1);
    if id.value >= count then Bad(IdOutOfRange)
    else Got((id.value, Vertex(vector.value, metadata.value, links.value, false)), links.next)
  }

  function NodeAt(codec: Codec, b: Bytes, count: nat): nat -> Reading<(int, Vertex)> {
    (pos: nat) => ReadNode(codec, b, count, pos)
  }

  function ReadKey(codec: Codec, b: Bytes, pos: nat): Reading<string> {
    var length :- ReadU32(b, pos);
    var key :- ReadBytes(b, length.next, length.value);
    Got(codec.text(key.value), key.next)
  }

  function KeyAt(codec: Codec, b: Bytes): nat -> Reading<string> {
    (pos: nat) => ReadKey(codec, b, pos)
  }

  /** Each node stored at its own ID. */
  function Placed(nodes: seq<(int, Vertex)>, count: nat): (r: seq<Option<Vertex>>)
    ensures |r| == count
  {
    if nodes == [] then seq(count, _ => None) else
      var front, last := Placed(nodes[..|nodes| - 1], count), nodes[|nodes| - 1];
      if 0 <= last.0 < count then front[last.0 := Some(last.1)] else front
  }

  /** Each key mapped to its last position. */
  function IdsOf(keys: seq<string>): map<string, NodeId> {
    if keys == [] then map[] else IdsOf(keys[..|keys| - 1])[keys[|keys| - 1] := |keys| - 1]
  }

  function OrDefault(n: int, default: nat): nat {
    if n <= 0 then default else n
  }

  function Natural(n: int): nat {
    OrDefault(n, 0)
  }

  function LoadContent(codec: Codec, b: Bytes): Reading<Loaded> {
    var magic :- ReadBytes(b, 0, 4);
    if magic.value != MAGIC then Bad(BadMagic) else
      var version :- ReadBytes(b, magic.next, 1);
      if version.value != [VERSION] then Bad(BadVersion) else
        var header :- Repeat(WordAt(b), version.next, 6);
        var count :- ReadU32(b, header.next);
        var nodes :- Repeat(NodeAt(codec, b, count.value), count.next, count.value);
        var keyCount :- ReadU32(b, nodes.next);
        var keys :- Repeat(KeyAt(codec, b), keyCount.next, keyCount.value);
        Got(Assembled(header.value, nodes.value, keys.value), keys.next)
  }

  function Assembled(header: seq<int>, nodes: seq<(int, Vertex)>, keys: seq<string>): Loaded
    requires |header| == 6
  {
    Loaded(Config(OrDefault(header[0], 16), Natural(header[1]), OrDefault(header[2], 200)), header[3],
           Placed(nodes, |nodes|), IdsOf(keys), keys, header[5], Natural(header[4]))
  }

  function Load(codec: Codec, data: Bytes): Loading {
    if |data| < 4 then Rejected(TooSmall) else
      var content := data[..|data| - 4];
      if ReadU32(data, |data| - 4) != Got(codec.crc(content), |data|) then Rejected(ChecksumMismatch)
      else
        match LoadContent(codec, content)
        case Got(index, _) => Restored(index)
        case Bad(error) => Rejected(error)
  }

  // ---------- the methods ----------

  method WriteLinks(node: Node) returns (buf: Bytes)
    ensures buf == Concat(LinksBytes(), node.Links)
  {
    buf := [];
    for l := 0 to |node.Links|
      invariant buf == Concat(LinksBytes(), node.Links[..l])
    {
      ConcatNext(LinksBytes(), node.Links, l);
      var links := node.Links[l];
      buf := buf + (U32(Trunc(|links|)) + WordsBytes(links));
    }
    ConcatAll(LinksBytes(), node.Links);
  }

  method WriteNode(codec: Codec, node: Node) returns (buf: Bytes)
    ensures buf == NodeBytes(codec)((node.ID, node.Value()))
  {
    buf := U32(Trunc(node.ID));
    buf := buf + U32(Trunc(|node.Links| - 1));
    buf := buf + U32(Trunc(|node.Vector|));
    buf := buf + VectorBytes(codec, node.Vector);
    var metaBytes := codec.json(node.Metadata);
    buf := buf + U32(Trunc(|metaBytes|));
    buf := buf + metaBytes;
    var links := WriteLinks(node);
    buf := buf + links;
    Nest(U32(Trunc(node.ID)), U32(Trunc(|node.Links| - 1)), U32(Trunc(|node.Vector|)), VectorBytes(codec, node.Vector),
         U32(Trunc(|metaBytes|)), metaBytes, links);
  }

  method WriteNodes(codec: Codec, idx: Index) returns (buf: Bytes)
    requires idx.Valid()
    ensures buf == Concat(NodeBytes(codec), Numbered(idx.Graph()))
  {
    buf := [];
    ghost var nodes := Numbered(idx.Graph());
    for i := 0 to |idx.nodes|
      invariant buf == Concat(NodeBytes(codec), nodes[..i])
    {
      ConcatNext(NodeBytes(codec), nodes, i);
      var node := WriteNode(codec, idx.nodes[i]);
      buf := buf + node;
    }
    ConcatAll(NodeBytes(codec), nodes);
  }

  method WriteKeys(codec: Codec, keys: seq<string>) returns (buf: Bytes)
    ensures buf == Concat(KeyBytes(codec), keys)
  {
    buf := [];
    for i := 0 to |keys|
      invariant buf == Concat(KeyBytes(codec), keys[..i])
    {
      ConcatNext(KeyBytes(codec), keys, i);
      var keyBytes := codec.utf8(keys[i]);
      buf := buf + (U32(Trunc(|keyBytes|)) + keyBytes);
    }
    ConcatAll(KeyBytes(codec), keys);
  }

  method WriteHeader(idx: Index) returns (buf: Bytes)
    ensures buf == WordsBytes(Header(StateOf(idx)))
  {
    buf := WordsBytes([idx.M, idx.Mmax0, idx.EfConstruction, idx.Ef, idx.currentMaxLayer, idx.entryPoint]);
  }

  function CountBytes(n: nat): Bytes {
    U32(Trunc(n))
  }

  method WriteContent(codec: Codec, idx: Index, ghost s: State) returns (buf: Bytes)
    requires idx.Valid() && s == StateOf(idx)
    ensures buf == Content(codec, s)
  {
    hide Concat, U32, WordsBytes, Numbered, NodeBytes, KeyBytes, Trunc, Header;
    var version: Bytes := [VERSION];
    var header := WriteHeader(idx);
    var count := CountBytes(|idx.nodes|);
    var nodes := WriteNodes(codec, idx);
    var keyCount := CountBytes(|idx.reverseMap|);
    var keys := WriteKeys(codec, idx.reverseMap);
    Nest(MAGIC, version, header, count, nodes, keyCount, keys);
    buf := MAGIC + version + header + count + nodes + keyCount + keys;
  }

  method WriteSnapshot(codec: Codec, idx: Index) returns (data: Bytes)
    requires idx.Valid()
    ensures data == File(codec, StateOf(idx))
  {
    var content := WriteContent(codec, idx, StateOf(idx));
    data := content + U32(codec.crc(content));
  }

  method LoadLinks(b: Bytes, pos0: nat, layers: nat) returns (r: Reading<seq<seq<NodeId>>>)
    ensures r == Repeat(LinksAtPos(b), pos0, layers)
  {
    var links, pos := [], pos0;
    for l := 0 to layers
      invariant Repeat(LinksAtPos(b), pos0, l) == Got(links, pos)
    {
      var next := LinksAtPos(b)(pos);
      if next.Bad? {
        FailsEarly(LinksAtPos(b), pos0, l + 1, layers);
        return Bad(next.error);
      }
      links, pos := links + [next.value], next.next;
    }
    r := Got(links, pos);
  }

  method LoadNode(codec: Codec, b: Bytes, count: nat, pos: nat) returns (r: Reading<(int, Vertex)>)
    ensures r == ReadNode(codec, b, count, pos)
  {
    var id :- ReadU32(b, pos);
    var maxLayer :- ReadU32(b, id.next);
    var vector :- ReadVector(codec, b, maxLayer.next);
    var metadata :- ReadMetadata(codec, b, vector.next);
    var layers: nat := maxLayer.value;
    var links := LoadLinks(b, metadata.next, layers + 1);
    if links.Bad? {
      return Bad(links.error);
    }
    if id.value >= count {
      return Bad(IdOutOfRange);
    }
    return Got((id.value, Vertex(vector.value, metadata.value, links.value, false)), links.next);
  }

  method LoadNodes(codec: Codec, b: Bytes, pos0: nat, count: nat) returns (r: Reading<seq<Option<Vertex>>>)
    ensures var list := Repeat(NodeAt(codec, b, count), pos0, count);
      r == if list.Bad? then Bad(list.error) else Got(Placed(list.value, count), list.next)
  {
    var nodes, pos := seq(count, _ => None), pos0;
    ghost var list: seq<(int, Vertex)> := [];
    for i := 0 to count
      invariant Repeat(NodeAt(codec, b, count), pos0, i) == Got(list, pos)
      invariant nodes == Placed(list, count)
    {
      var node := LoadNode(codec, b, count, pos);
      if node.Bad? {
        FailsEarly(NodeAt(codec, b, count), pos0, i + 1, count);
        return Bad(node.error);
      }
      ghost var before := list;
      list, pos := list + [node.value], node.next;
      assert list[..|list| - 1] == before;
      nodes := nodes[node.value.0 := Some(node.value.1)];
    }
    r := Got(nodes, pos);
  }

  method LoadKeys(codec: Codec, b: Bytes, pos0: nat, count: nat)
    returns (r: Reading<seq<string>>, idMap: map<string, NodeId>)
    ensures r == Repeat(KeyAt(codec, b), pos0, count) && (r.Got? ==> idMap == IdsOf(r.value))
  {
    var reverseMap, pos := [], pos0;
    idMap := map[];
    for i := 0 to count
      invariant Repeat(KeyAt(codec, b), pos0, i) == Got(reverseMap, pos) && idMap == IdsOf(reverseMap)
    {
      var key := KeyAt(codec, b)(pos);
      if key.Bad? {
        FailsEarly(KeyAt(codec, b), pos0, i + 1, count);
        return Bad(key.error), idMap;
      }
      ghost var before := reverseMap;
      reverseMap, pos := reverseMap + [key.value], key.next;
      assert reverseMap[..|reverseMap| - 1] == before;
      idMap := idMap[key.value := i];
    }
    r := Got(reverseMap, pos);
  }

  method ParseContent(codec: Codec, b: Bytes) returns (r: Reading<Loaded>)
    ensures r == LoadContent(codec, b)
  {
    var magic :- ReadBytes(b, 0, 4);
    if magic.value != MAGIC {
      return Bad(BadMagic);
    }
    var version :- ReadBytes(b, magic.next, 1);
    if version.value != [VERSION] {
      return Bad(BadVersion);
    }
    var header :- Repeat(WordAt(b), version.next, 6);
    var count :- ReadU32(b, header.next);
    var nodes := LoadNodes(codec, b, count.next, count.value);
    if nodes.Bad? {
      return Bad(nodes.error);
    }
    var keyCount :- ReadU32(b, nodes.next);
    var keys, idMap := LoadKeys(codec, b, keyCount.next, keyCount.value);
    if keys.Bad? {
      return Bad(keys.error);
    }
    var h := header.value;
    return Got(Loaded(Config(OrDefault(h[0], 16), Natural(h[1]), OrDefault(h[2], 200)), h[3],
                      nodes.value, idMap, keys.value, h[5], Natural(h[4])), keys.next);
  }

  method LoadSnapshot(codec: Codec, data: Bytes) returns (r: Loading)
    ensures r == Load(codec, data)
  {
    if |data| < 4 {
      return Rejected(TooSmall);
    }
    var contentLen := |data| - 4;
    var content := data[..contentLen];
    var expected := ReadU32(data, contentLen);
    if expected.value != codec.crc(content) {
      return Rejected(ChecksumMismatch);
    }
    var loaded := ParseContent(codec, content);
    match loaded
    case Got(index, _) => return Restored(index);
    case Bad(error) => return Rejected(error);
  }

  // ---------- the round trip ----------

  ghost predicate IsWord(n: int) { 0 <= n < 0x1_0000_0000 }

  /** Everything written as 32 bits fits, and the codecs lose nothing of this vertex. */
  ghost predicate VertexFits(codec: Codec, v: Vertex) {
    && v.links != [] && IsWord(|v.links|) && IsWord(|v.vector|) && IsWord(|codec.json(v.metadata)|)
    && codec.meta(codec.json(v.metadata)) == Some(v.metadata)
    && (forall i :: 0 <= i < |v.vector| ==> codec.float(codec.bits(v.vector[i])) == v.vector[i])
    && (forall l :: 0 <= l < |v.links| ==> LinksFit(v.links[l]))
  }

  ghost predicate Fits(codec: Codec, s: State) {
    && (forall k :: 0 <= k < 6 ==> IsWord(Header(s)[k]))
    && IsWord(|s.graph|) && IsWord(|s.reverseMap|)
    && (forall i :: 0 <= i < |s.graph| ==> VertexFits(codec, s.graph[i]))
    && (forall i :: 0 <= i < |s.reverseMap| ==> KeyFits(codec, s.reverseMap[i]))
  }

  lemma {:induction false} WordsAreRead(b: Bytes, pos: nat, fields: seq<int>)
    requires At(b, pos, WordsBytes(fields)) && forall k :: 0 <= k < |fields| ==> IsWord(fields[k])
    ensures Repeat(WordAt(b), pos, |fields|) == Got(fields, pos + |WordsBytes(fields)|)
    decreases |fields|
  {
    hide Repeat, U32, ReadU32, At;
    if fields != [] {
      var n := |fields| - 1;
      var next := pos + |WordsBytes(fields[..n])|;
      AtConcat(b, pos, WordsBytes(fields[..n]), U32(Trunc(fields[n])));
      WordsAreRead(b, pos, fields[..n]);
      assert Trunc(fields[n]) == fields[n];
      U32IsRead(b, next, Trunc(fields[n]));
      RepeatNext(WordAt(b), pos, n, fields[..n], next, fields[n], next + 4);
      assert fields == fields[..n] + [fields[n]];
    } else {
      RepeatNone(WordAt(b), pos);
    }
  }

  lemma CountIsRead(b: Bytes, pos: nat, n: nat, rest: Bytes)
    requires At(b, pos, U32(Trunc(n)) + rest) && IsWord(n)
    ensures ReadU32(b, pos) == Got(n, pos + 4) && At(b, pos + 4, rest)
  {
    AtConcat(b, pos, U32(Trunc(n)), rest);
    U32IsRead(b, pos, n);
  }

  lemma LinksAreRead(b: Bytes, pos: nat, links: seq<NodeId>)
    requires At(b, pos, LinksBytes()(links)) && LinksFit(links)
    ensures ReadLinks(b, pos) == Got(links, pos + |LinksBytes()(links)|)
  {
    CountIsRead(b, pos, |links|, WordsBytes(links));
    WordsAreRead(b, pos + 4, links);
  }

  ghost predicate LinksFit(links: seq<NodeId>) {
    IsWord(|links|) && forall k :: 0 <= k < |links| ==> IsWord(links[k])
  }

  lemma LinksInvert(b: Bytes, links: seq<NodeId>)
    requires LinksFit(links)
    ensures Inverts(b, LinksBytes(), LinksAtPos(b), links)
  {
    forall p: nat | At(b, p, LinksBytes()(links)) ensures LinksAtPos(b)(p) == Got(links, p + |LinksBytes()(links)|) {
      LinksAreRead(b, p, links);
    }
  }

  lemma AllLinksInvert(b: Bytes, links: seq<seq<NodeId>>)
    requires forall l :: 0 <= l < |links| ==> LinksFit(links[l])
    ensures InvertsAll(b, LinksBytes(), LinksAtPos(b), links)
  {
    forall l | 0 <= l < |links| ensures Inverts(b, LinksBytes(), LinksAtPos(b), links[l]) {
      LinksInvert(b, links[l]);
    }
  }

  lemma LayersAreRead(b: Bytes, pos: nat, links: seq<seq<NodeId>>)
    requires At(b, pos, Concat(LinksBytes(), links)) && forall l :: 0 <= l < |links| ==> LinksFit(links[l])
    ensures Repeat(LinksAtPos(b), pos, |links|) == Got(links, pos + |Concat(LinksBytes(), links)|)
  {
    hide *;
    AllLinksInvert(b, links);
    RepeatInvertsConcat(b, pos, LinksBytes(), LinksAtPos(b), links);
  }

  lemma VectorIsRead(codec: Codec, b: Bytes, pos: nat, v: Vector, rest: Bytes)
    requires At(b, pos, U32(Trunc(|v|)) + (VectorBytes(codec, v) + rest)) && IsWord(|v|)
    requires forall i :: 0 <= i < |v| ==> codec.float(codec.bits(v[i])) == v[i]
    ensures var next := pos + 4 + |VectorBytes(codec, v)|;
      ReadVector(codec, b, pos) == Got(v, next) && At(b, next, rest)
  {
    CountIsRead(b, pos, |v|, VectorBytes(codec, v) + rest);
    AtConcat(b, pos + 4, VectorBytes(codec, v), rest);
    FloatsAreRead(codec, b, pos + 4, v);
    var words := Repeat(WordAt(b), pos + 4, |v|);
    assert Floats(codec, words.value) == v;
  }

  lemma {:induction false} FloatsAreRead(codec: Codec, b: Bytes, pos: nat, v: Vector)
    requires At(b, pos, VectorBytes(codec, v))
    ensures var r := Repeat(WordAt(b), pos, |v|);
      r.Got? && r.next == pos + |VectorBytes(codec, v)| && forall i :: 0 <= i < |v| ==> r.value[i] == codec.bits(v[i])
  {
    if v != [] {
      var front, last := v[..|v| - 1], v[|v| - 1];
      AtConcat(b, pos, VectorBytes(codec, front), U32(codec.bits(last)));
      FloatsAreRead(codec, b, pos, front);
      U32IsRead(b, pos + |VectorBytes(codec, front)|, codec.bits(last));
    }
  }

  lemma MetadataIsRead(codec: Codec, b: Bytes, pos: nat, metadata: Metadata, rest: Bytes)
    requires var json := codec.json(metadata);
      At(b, pos, U32(Trunc(|json|)) + (json + rest)) && IsWord(|json|) && codec.meta(json) == Some(metadata)
    ensures var next := pos + 4 + |codec.json(metadata)|;
      ReadMetadata(codec, b, pos) == Got(metadata, next) && At(b, next, rest)
  {
    var json := codec.json(metadata);
    CountIsRead(b, pos, |json|, json + rest);
    AtConcat(b, pos + 4, json, rest);
    BytesAreRead(b, pos + 4, json);
  }

  function FromMetadata(codec: Codec, v: Vertex): Bytes {
    U32(Trunc(|codec.json(v.metadata)|)) + (codec.json(v.metadata) + Concat(LinksBytes(), v.links))
  }

  function FromVector(codec: Codec, v: Vertex): Bytes {
    U32(Trunc(|v.vector|)) + (VectorBytes(codec, v.vector) + FromMetadata(codec, v))
  }

  /** The vector, the metadata and the links of a node, one after another. */
  lemma BodyIsRead(codec: Codec, b: Bytes, pos: nat, v: Vertex)
    requires At(b, pos, FromVector(codec, v)) && VertexFits(codec, v)
    ensures var p := pos + 4 + |VectorBytes(codec, v.vector)|;
      var q := p + 4 + |codec.json(v.metadata)|;
      && ReadVector(codec, b, pos) == Got(v.vector, p)
      && ReadMetadata(codec, b, p) == Got(v.metadata, q)
      && Repeat(LinksAtPos(b), q, |v.links|) == Got(v.links, pos + |FromVector(codec, v)|)
  {
    hide Repeat, Concat, U32, At, ReadVector, ReadMetadata, VectorBytes;
    VectorIsRead(codec, b, pos, v.vector, FromMetadata(codec, v));
    var p := pos + 4 + |VectorBytes(codec, v.vector)|;
    MetadataIsRead(codec, b, p, v.metadata, Concat(LinksBytes(), v.links));
    LayersAreRead(b, p + 4 + |codec.json(v.metadata)|, v.links);
  }

  lemma NodeIsRead(codec: Codec, b: Bytes, count: nat, pos: nat, id: int, v: Vertex)
    requires At(b, pos, NodeBytes(codec)((id, v))) && VertexFits(codec, v) && IsWord(id) && id < count
    ensures ReadNode(codec, b, count, pos)
         == Got((id, Vertex(v.vector, v.metadata, v.links, false)), pos + |NodeBytes(codec)((id, v))|)
  {
    hide Repeat, Concat, U32, At, ReadVector, ReadMetadata, VectorBytes, ReadU32;
    CountIsRead(b, pos, id, U32(Trunc(|v.links| - 1)) + FromVector(codec, v));
    CountIsRead(b, pos + 4, |v.links| - 1, FromVector(codec, v));
    BodyIsRead(codec, b, pos + 8, v);
  }

  /** The snapshot has no tombstones: every node comes back live. */
  function Revived(v: Vertex): Vertex {
    v.(deleted := false)
  }

  lemma NodeInverts(codec: Codec, b: Bytes, count: nat, id: int, v: Vertex)
    requires VertexFits(codec, v) && IsWord(id) && id < count && !v.deleted
    ensures Inverts(b, NodeBytes(codec), NodeAt(codec, b, count), (id, v))
  {
    forall p: nat | At(b, p, NodeBytes(codec)((id, v)))
      ensures NodeAt(codec, b, count)(p) == Got((id, v), p + |NodeBytes(codec)((id, v))|)
    {
      NodeIsRead(codec, b, count, p, id, v);
    }
  }

  function RevivedAll(g: Graph): (r: Graph)
    ensures |r| == |g| && forall i :: 0 <= i < |g| ==> r[i] == Revived(g[i])
  {
    seq(|g|, i requires 0 <= i < |g| => Revived(g[i]))
  }

  lemma AllNodesInvert(codec: Codec, b: Bytes, g: Graph)
    requires IsWord(|g|) && forall i :: 0 <= i < |g| ==> VertexFits(codec, g[i]) && !g[i].deleted
    ensures InvertsAll(b, NodeBytes(codec), NodeAt(codec, b, |g|), Numbered(g))
  {
    forall i | 0 <= i < |g| ensures Inverts(b, NodeBytes(codec), NodeAt(codec, b, |g|), Numbered(g)[i]) {
      NodeInverts(codec, b, |g|, i, g[i]);
    }
  }

  lemma RevivedFits(codec: Codec, g: Graph)
    requires forall i :: 0 <= i < |g| ==> VertexFits(codec, g[i])
    ensures forall i :: 0 <= i < |g| ==> VertexFits(codec, RevivedAll(g)[i]) && !RevivedAll(g)[i].deleted
  {
  }

  lemma NodesAreRead(codec: Codec, b: Bytes, pos: nat, g: Graph)
    requires At(b, pos, Concat(NodeBytes(codec), Numbered(g))) && IsWord(|g|)
    requires forall i :: 0 <= i < |g| ==> VertexFits(codec, g[i])
    ensures Repeat(NodeAt(codec, b, |g|), pos, |g|)
         == Got(Numbered(RevivedAll(g)), pos + |Concat(NodeBytes(codec), Numbered(g))|)
  {
    hide Repeat, Concat, At, InvertsAll, VertexFits, NodeBytes, NodeAt, RevivedAll, Numbered;
    var live := RevivedAll(g);
    SameBytes(codec, Numbered(g), Numbered(live));
    RevivedFits(codec, g);
    AllNodesInvert(codec, b, live);
    RepeatInvertsConcat(b, pos, NodeBytes(codec), NodeAt(codec, b, |live|), Numbered(live));
  }

  lemma {:induction false} SameBytes(codec: Codec, a: seq<(int, Vertex)>, b: seq<(int, Vertex)>)
    requires |a| == |b| && forall i :: 0 <= i < |a| ==> b[i] == (a[i].0, Revived(a[i].1))
    ensures Concat(NodeBytes(codec), a) == Concat(NodeBytes(codec), b)
  {
    hide U32, VectorBytes, WordsBytes, LinksBytes, Trunc;
    if a != [] {
      SameBytes(codec, a[..|a| - 1], b[..|b| - 1]);
    }
  }

  ghost predicate KeyFits(codec: Codec, key: string) {
    IsWord(|codec.utf8(key)|) && codec.text(codec.utf8(key)) == key
  }

  lemma KeyInverts(codec: Codec, b: Bytes, key: string)
    requires KeyFits(codec, key)
    ensures Inverts(b, KeyBytes(codec), KeyAt(codec, b), key)
  {
    forall p: nat | At(b, p, KeyBytes(codec)(key)) ensures KeyAt(codec, b)(p) == Got(key, p + |KeyBytes(codec)(key)|) {
      var bytes := codec.utf8(key);
      CountIsRead(b, p, |bytes|, bytes);
      BytesAreRead(b, p + 4, bytes);
    }
  }

  lemma AllKeysInvert(codec: Codec, b: Bytes, keys: seq<string>)
    requires forall i :: 0 <= i < |keys| ==> KeyFits(codec, keys[i])
    ensures InvertsAll(b, KeyBytes(codec), KeyAt(codec, b), keys)
  {
    forall i | 0 <= i < |keys| ensures Inverts(b, KeyBytes(codec), KeyAt(codec, b), keys[i]) {
      KeyInverts(codec, b, keys[i]);
    }
  }

  lemma KeysAreRead(codec: Codec, b: Bytes, pos: nat, keys: seq<string>)
    requires At(b, pos, Concat(KeyBytes(codec), keys)) && forall i :: 0 <= i < |keys| ==> KeyFits(codec, keys[i])
    ensures Repeat(KeyAt(codec, b), pos, |keys|) == Got(keys, pos + |Concat(KeyBytes(codec), keys)|)
  {
    AllKeysInvert(codec, b, keys);
    RepeatInvertsConcat(b, pos, KeyBytes(codec), KeyAt(codec, b), keys);
  }

  // ---------- the restored index ----------

  /** Every slot filled. */
  function Present(g: Graph): (r: seq<Option<Vertex>>)
    ensures |r| == |g| && forall i :: 0 <= i < |g| ==> r[i] == Some(g[i])
  {
    seq(|g|, i requires 0 <= i < |g| => Some(g[i]))
  }

  lemma {:induction false} PlacedInOrder(nodes: seq<(int, Vertex)>, count: nat)
    requires |nodes| <= count && forall i :: 0 <= i < |nodes| ==> nodes[i].0 == i
    ensures forall i :: 0 <= i < count ==>
      Placed(nodes, count)[i] == if i < |nodes| then Some(nodes[i].1) else None
  {
    if nodes != [] {
      PlacedInOrder(nodes[..|nodes| - 1], count);
    }
  }

  lemma PlacedIsPresent(g: Graph)
    ensures Placed(Numbered(g), |g|) == Present(g)
  {
    PlacedInOrder(Numbered(g), |g|);
  }

  /** What LoadSnapshot makes of the snapshot of a state. */
  function Restore(s: State): Loaded {
    Loaded(s.config, s.ef, Present(RevivedAll(s.graph)), IdsOf(s.reverseMap), s.reverseMap, s.entryPoint, s.maxLayer)
  }

  /** The state itself, as a loaded index. */
  function Whole(s: State): Loaded {
    Loaded(s.config, s.ef, Present(s.graph), s.idMap, s.reverseMap, s.entryPoint, s.maxLayer)
  }

  function FromKeys(codec: Codec, s: State): Bytes {
    U32(Trunc(|s.reverseMap|)) + Concat(KeyBytes(codec), s.reverseMap)
  }

  function FromNodes(codec: Codec, s: State): Bytes {
    U32(Trunc(|s.graph|)) + (Concat(NodeBytes(codec), Numbered(s.graph)) + FromKeys(codec, s))
  }

  lemma PreambleIsRead(codec: Codec, s: State)
    requires Fits(codec, s)
    ensures var b, p := Content(codec, s), 5 + |WordsBytes(Header(s))|;
      && ReadBytes(b, 0, 4) == Got(MAGIC, 4) && ReadBytes(b, 4, 1) == Got([VERSION], 5)
      && Repeat(WordAt(b), 5, 6) == Got(Header(s), p)
      && At(b, p, FromNodes(codec, s)) && |b| == p + |FromNodes(codec, s)|
  {
    hide Repeat, Concat, U32, At, ReadBytes, WordsBytes, Numbered, NodeBytes, KeyBytes, Trunc;
    var b, header, rest := Content(codec, s), WordsBytes(Header(s)), FromNodes(codec, s);
    AtConcat(b, 0, MAGIC, [VERSION] + (header + rest));
    AtConcat(b, 4, [VERSION], header + rest);
    AtConcat(b, 5, header, rest);
    BytesAreRead(b, 0, MAGIC);
    BytesAreRead(b, 4, [VERSION]);
    WordsAreRead(b, 5, Header(s));
  }

  lemma ListsAreRead(codec: Codec, s: State, b: Bytes, p: nat)
    requires Fits(codec, s) && At(b, p, FromNodes(codec, s))
    ensures var q, n := p + 4 + |Concat(NodeBytes(codec), Numbered(s.graph))|, |s.graph|;
      && ReadU32(b, p) == Got(n, p + 4)
      && Repeat(NodeAt(codec, b, n), p + 4, n) == Got(Numbered(RevivedAll(s.graph)), q)
      && ReadU32(b, q) == Got(|s.reverseMap|, q + 4)
      && Repeat(KeyAt(codec, b), q + 4, |s.reverseMap|) == Got(s.reverseMap, p + |FromNodes(codec, s)|)
  {
    hide Repeat, Concat, U32, At, ReadU32;
    var nodes, keys := Concat(NodeBytes(codec), Numbered(s.graph)), Concat(KeyBytes(codec), s.reverseMap);
    CountIsRead(b, p, |s.graph|, nodes + FromKeys(codec, s));
    AtConcat(b, p + 4, nodes, FromKeys(codec, s));
    NodesAreRead(codec, b, p + 4, s.graph);
    CountIsRead(b, p + 4 + |nodes|, |s.reverseMap|, keys);
    KeysAreRead(codec, b, p + 8 + |nodes|, s.reverseMap);
  }

  lemma AssembledIs(s: State)
    requires s.config.m > 0 && s.config.efConstruction > 0 && forall k :: 0 <= k < 6 ==> IsWord(Header(s)[k])
    ensures Assembled(Header(s), Numbered(RevivedAll(s.graph)), s.reverseMap) == Restore(s)
  {
    PlacedIsPresent(RevivedAll(s.graph));
    var h := Header(s);
    assert IsWord(h[0]) && IsWord(h[1]) && IsWord(h[2]) && IsWord(h[3]) && IsWord(h[4]) && IsWord(h[5]);
  }

  lemma ContentIsLoaded(codec: Codec, s: State)
    requires Fits(codec, s) && s.config.m > 0 && s.config.efConstruction > 0
    ensures LoadContent(codec, Content(codec, s)) == Got(Restore(s), |Content(codec, s)|)
  {
    hide Repeat, Concat, U32, At, ReadU32, ReadBytes, Content, WordsBytes, Header, FromNodes, Numbered, RevivedAll,
      Assembled, Restore;
    PreambleIsRead(codec, s);
    ListsAreRead(codec, s, Content(codec, s), 5 + |WordsBytes(Header(s))|);
    AssembledIs(s);
  }

  /** Loading a snapshot restores everything but the tombstones. */
  lemma LoadRestores(codec: Codec, s: State)
    requires WellFormed(s) && Fits(codec, s)
    ensures Load(codec, File(codec, s)) == Restored(Restore(s))
  {
    var content := Content(codec, s);
    var data := File(codec, s);
    var sum := codec.crc(content);
    assert data[..|data| - 4] == content;
    AtStart(content, U32(sum));
    U32IsRead(data, |content|, sum);
    ContentIsLoaded(codec, s);
  }

  lemma {:induction false} IdsOfAt(keys: seq<string>, i: nat)
    requires i < |keys| && forall j :: i < j < |keys| ==> keys[j] != keys[i]
    ensures keys[i] in IdsOf(keys) && IdsOf(keys)[keys[i]] == i
  {
    if i < |keys| - 1 {
      IdsOfAt(keys[..|keys| - 1], i);
    }
  }

  lemma {:induction false} IdsOfKeys(keys: seq<string>, k: string)
    requires k in IdsOf(keys)
    ensures k in keys
  {
    if k != keys[|keys| - 1] {
      IdsOfKeys(keys[..|keys| - 1], k);
    }
  }

  /** Without tombstones the key map is the inverse of the key list. */
  lemma MapIsInverse(s: State)
    requires KeysOk(s) && forall i :: 0 <= i < |s.graph| ==> !s.graph[i].deleted
    ensures IdsOf(s.reverseMap) == s.idMap
  {
    forall i | 0 <= i < |s.reverseMap|
      ensures s.reverseMap[i] in IdsOf(s.reverseMap) && IdsOf(s.reverseMap)[s.reverseMap[i]] == i
    {
      assert !s.graph[i].deleted;
      forall j | i < j < |s.reverseMap| ensures s.reverseMap[j] != s.reverseMap[i] {
        assert !s.graph[j].deleted;
      }
      IdsOfAt(s.reverseMap, i);
    }
    forall k | k in IdsOf(s.reverseMap) ensures k in s.idMap && IdsOf(s.reverseMap)[k] == s.idMap[k] {
      IdsOfKeys(s.reverseMap, k);
      var i :| 0 <= i < |s.reverseMap| && s.reverseMap[i] == k;
      assert !s.graph[i].deleted;
    }
    forall k | k in s.idMap ensures k in IdsOf(s.reverseMap) {
      assert s.reverseMap[s.idMap[k]] == k;
    }
  }

  lemma WholeExactly(s: State)
    requires KeysOk(s)
    ensures Restore(s) == Whole(s) <==> forall i :: 0 <= i < |s.graph| ==> !s.graph[i].deleted
  {
    if forall i :: 0 <= i < |s.graph| ==> !s.graph[i].deleted {
      MapIsInverse(s);
      assert RevivedAll(s.graph) == s.graph;
    } else {
      var i :| 0 <= i < |s.graph| && s.graph[i].deleted;
      assert Restore(s).nodes[i] == Some(Revived(s.graph[i])) != Whole(s).nodes[i];
    }
  }

  /** LoadSnapshot of Snapshot is the index itself exactly when no node is a tombstone. */
  lemma SnapshotRoundTrip(codec: Codec, s: State)
    requires WellFormed(s) && Fits(codec, s)
    ensures Load(codec, File(codec, s)) == Restored(Whole(s))
      <==> forall i :: 0 <= i < |s.graph| ==> !s.graph[i].deleted
  {
    LoadRestores(codec, s);
    WholeExactly(s);
  }

  // ---------- what is not a snapshot ----------

  /** A little-endian number of four bytes. */
  function Number(b: Bytes): nat
    requires |b| == 4
  {
    (b[0] as int) + 0x100 * (b[1] as int) + 0x1_0000 * (b[2] as int) + 0x100_0000 * (b[3] as int)
  }

  /** Whatever its bytes, data is rejected unless it ends in the checksum of what comes before, and
      that begins with the magic word and the version. */
  lemma DamageIsRejected(codec: Codec, data: Bytes)
    ensures |data| < 4 ==> Load(codec, data) == Rejected(TooSmall)
    ensures |data| >= 4 ==>
      var content, sum := data[..|data| - 4], Number(data[|data| - 4..]);
      && (sum != codec.crc(content) ==> Load(codec, data) == Rejected(ChecksumMismatch))
      && (sum == codec.crc(content) && |content| >= 4 && content[..4] != MAGIC ==>
            Load(codec, data) == Rejected(BadMagic))
      && (sum == codec.crc(content) && |content| >= 5 && content[..4] == MAGIC && content[4] != VERSION ==>
            Load(codec, data) == Rejected(BadVersion))
      && (Load(codec, data).Restored? ==>
            sum == codec.crc(content) && |content| >= 5 && content[..4] == MAGIC && content[4] == VERSION)
  {
    hide Repeat, NodeAt, KeyAt;
    if |data| >= 4 {
      var content := data[..|data| - 4];
      if |content| >= 4 {
        assert content[0..4] == content[..4];
      }
      if |content| >= 5 {
        assert content[4..5] == [content[4]];
      }
    }
  }

  lemma {:induction false} WordsLayout(b: Bytes, pos: nat, fields: seq<int>, k: nat)
    requires At(b, pos, WordsBytes(fields)) && k < |fields|
    ensures At(b, pos + 4 * k, U32(Trunc(fields[k]))) && |WordsBytes(fields)| == 4 * |fields|
  {
    hide U32, At;
    var n := |fields| - 1;
    WordsSize(fields);
    WordsSize(fields[..n]);
    AtConcat(b, pos, WordsBytes(fields[..n]), U32(Trunc(fields[n])));
    if k < n {
      WordsLayout(b, pos, fields[..n], k);
    }
  }

  lemma {:induction false} WordsSize(fields: seq<int>)
    ensures |WordsBytes(fields)| == 4 * |fields|
  {
    hide U32;
    if fields != [] {
      WordsSize(fields[..|fields| - 1]);
    }
  }

  /** The magic word, the version, and each number of the header in its place. */
  lemma HeaderLayout(codec: Codec, s: State)
    ensures var b := File(codec, s);
      && At(b, 0, MAGIC) && At(b, 4, [VERSION])
      && At(b, 5, U32(Trunc(s.config.m))) && At(b, 9, U32(Trunc(s.config.mmax0)))
      && At(b, 13, U32(Trunc(s.config.efConstruction))) && At(b, 17, U32(Trunc(s.ef)))
      && At(b, 21, U32(Trunc(s.maxLayer))) && At(b, 25, U32(Trunc(s.entryPoint)))
      && At(b, 29, U32(Trunc(|s.graph|)))
  {
    hide U32, At, WordsBytes, Concat, Trunc;
    var b, header := File(codec, s), Header(s);
    var keys := U32(Trunc(|s.reverseMap|)) + Concat(KeyBytes(codec), s.reverseMap);
    var nodes := Concat(NodeBytes(codec), Numbered(s.graph)) + keys;
    var counted := U32(Trunc(|s.graph|)) + nodes;
    AtStart(Content(codec, s), U32(codec.crc(Content(codec, s))));
    AtConcat(b, 0, MAGIC, [VERSION] + (WordsBytes(header) + counted));
    AtConcat(b, 4, [VERSION], WordsBytes(header) + counted);
    AtConcat(b, 5, WordsBytes(header), counted);
    WordsSize(header);
    AtConcat(b, 29, U32(Trunc(|s.graph|)), nodes);
    WordsLayout(b, 5, header, 0);
    WordsLayout(b, 5, header, 1);
    WordsLayout(b, 5, header, 2);
    WordsLayout(b, 5, header, 3);
    WordsLayout(b, 5, header, 4);
    WordsLayout(b, 5, header, 5);
  }

  /** A list of words, read where it lies. */
  lemma {:induction false} WordsAreNumbers(b: Bytes, pos: nat, n: nat)
    ensures var r := Repeat(WordAt(b), pos, n);
      r.Got? ==>
        && |r.value| == n && r.next == pos + 4 * n && (n > 0 ==> r.next <= |b|)
        && forall k: nat {:trigger r.value[k]} :: k < n ==> r.value[k] == Number(b[pos + 4 * k..pos + 4 * k + 4])
  {
    if n > 0 {
      WordsAreNumbers(b, pos, n - 1);
    }
  }

  /** Whatever is accepted: the parameters of the index are the numbers of its header, with the
      defaults of a new index for a zero M and a zero construction depth. */
  lemma HeaderIsLoaded(codec: Codec, b: Bytes)
    requires LoadContent(codec, b).Got?
    ensures |b| >= 29
    ensures var l := LoadContent(codec, b).value;
      var at := (pos: nat) => if pos + 4 <= |b| then Number(b[pos..pos + 4]) else 0;
      && l.config.m == (if at(5) == 0 then 16 else at(5)) && l.config.mmax0 == at(9)
      && l.config.efConstruction == (if at(13) == 0 then 200 else at(13))
      && l.ef == at(17) && l.maxLayer == at(21) && l.entryPoint == at(25)
  {
    hide Repeat, NodeAt, KeyAt, WordAt, Placed, IdsOf, Number;
    WordsAreNumbers(b, 5, 6);
    var header := Repeat(WordAt(b), 5, 6);
    assert header.value[0] == Number(b[5..9]) && header.value[1] == Number(b[9..13]);
    assert header.value[2] == Number(b[13..17]) && header.value[3] == Number(b[17..21]);
    assert header.value[4] == Number(b[21..25]) && header.value[5] == Number(b[25..29]);
  }

  /** A slot holds the last node of its number, or nothing. */
  lemma {:induction false} PlacedIsLast(nodes: seq<(int, Vertex)>, count: nat, k: nat)
    requires k < |nodes| && 0 <= nodes[k].0 < count && forall j :: k < j < |nodes| ==> nodes[j].0 != nodes[k].0
    ensures Placed(nodes, count)[nodes[k].0] == Some(nodes[k].1)
  {
    if k < |nodes| - 1 {
      PlacedIsLast(nodes[..|nodes| - 1], count, k);
    }
  }

  lemma {:induction false} NoneIsPlaced(nodes: seq<(int, Vertex)>, count: nat, i: nat)
    requires i < count && forall j :: 0 <= j < |nodes| ==> nodes[j].0 != i
    ensures Placed(nodes, count)[i] == None
  {
    if nodes != [] {
      NoneIsPlaced(nodes[..|nodes| - 1], count, i);
    }
  }

  /** A key leads to its last position. */
  lemma {:induction false} IdIsLast(keys: seq<string>, key: string)
    ensures key in IdsOf(keys) <==> key in keys
    ensures key in keys ==>
      var i := IdsOf(keys)[key];
      0 <= i < |keys| && keys[i] == key && forall j :: i < j < |keys| ==> keys[j] != key
  {
    if keys != [] {
      IdIsLast(keys[..|keys| - 1], key);
    }
  }

  /** Each part of a node in its place: its number, its level, its vector, its metadata, its links. */
  lemma NodeLayout(codec: Codec, id: int, v: Vertex)
    ensures var b, json := NodeBytes(codec)((id, v)), codec.json(v.metadata);
      var size := |VectorBytes(codec, v.vector)|;
      && At(b, 0, U32(Trunc(id))) && At(b, 4, U32(Trunc(|v.links| - 1)))
      && At(b, 8, U32(Trunc(|v.vector|))) && At(b, 12, VectorBytes(codec, v.vector))
      && At(b, 12 + size, U32(Trunc(|json|))) && At(b, 16 + size, json)
      && At(b, 16 + size + |json|, Concat(LinksBytes(), v.links))
  {
    hide At, Concat, VectorBytes, LinksBytes;
    PartsLayout(U32(Trunc(id)), U32(Trunc(|v.links| - 1)), U32(Trunc(|v.vector|)), VectorBytes(codec, v.vector),
                U32(Trunc(|codec.json(v.metadata)|)), codec.json(v.metadata), Concat(LinksBytes(), v.links));
  }

  lemma PartsLayout(a: Bytes, b: Bytes, c: Bytes, d: Bytes, e: Bytes, f: Bytes, g: Bytes)
    requires |a| == |b| == |c| == |e| == 4
    ensures var s := a + (b + (c + (d + (e + (f + g)))));
      && At(s, 0, a) && At(s, 4, b) && At(s, 8, c) && At(s, 12, d) && At(s, 12 + |d|, e) && At(s, 16 + |d|, f)
      && At(s, 16 + |d| + |f|, g)
  {
    hide At;
    var s := a + (b + (c + (d + (e + (f + g)))));
    AtAll(s);
    AtConcat(s, 0, a, b + (c + (d + (e + (f + g)))));
    AtConcat(s, 4, b, c + (d + (e + (f + g))));
    AtConcat(s, 8, c, d + (e + (f + g)));
    AtConcat(s, 12, d, e + (f + g));
    AtConcat(s, 12 + |d|, e, f + g);
    AtConcat(s, 16 + |d|, f, g);
  }

  lemma AtAll(b: Bytes)
    ensures At(b, 0, b)
  {
  }
}
