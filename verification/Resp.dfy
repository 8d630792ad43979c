/** Replies on the wire: the Serialize methods of types.go:31-89 and readResponse of
    pkg/client/client.go:171-228.  Each character stands for one byte. */
module Resp {
  import opened Text
  import opened Decimal
  import opened Spans

  datatype Reply =
    | SimpleString(value: string)
    | ErrorReply(message: string)
    | Integer(number: int)
    | Bulk(value: string)
    | NilBulk
    | Array(items: seq<Reply>)

  /** What the client makes of a reply; ErrNil accompanies a value that is nil. */
  datatype Value = Value(isNil: bool, str: string, array: Option<seq<Value>>)

  datatype Failure =
    | EndOfInput
    | EmptyResponse
    | ServerError(message: string)
    | BadLength(text: string)
    | BadCount(text: string)
    | NegativeSlice

  datatype Reading = Got(value: Value, next: nat) | Failed(failure: Failure)

  datatype ItemsReading = GotItems(items: seq<Value>, next: nat) | ItemFailed(failure: Failure)

  const CRLF := "\r\n"

  // ---------- the printer ----------

  function Serialize(r: Reply): string {
    match r
    case SimpleString(value) => "+" + value + CRLF
    case ErrorReply(message) => "-ERR " + message + CRLF
    case Integer(number) => ":" + Itoa(number) + CRLF
    case Bulk(value) => "$" + Itoa(|value|) + CRLF + (value + CRLF)
    case NilBulk => "$-1" + CRLF
    case Array(items) => "*" + Itoa(|items|) + CRLF + SerializeAll(items)
  }

  function SerializeAll(items: seq<Reply>): string {
    if items == [] then "" else SerializeAll(items[..|items| - 1]) + Serialize(items[|items| - 1])
  }

  // ---------- the parser ----------

  /** The first newline at or after pos, or the end. */
  function LineEnd(s: string, pos: nat): (n: nat)
    requires pos <= |s|
    ensures pos <= n <= |s| && (n < |s| ==> s[n] == '\n')
    ensures forall i :: pos <= i < n ==> s[i] != '\n'
    decreases |s| - pos
  {
    if pos == |s| || s[pos] == '\n' then pos else LineEnd(s, pos + 1)
  }

  /** The characters from pos up to end. */
  function Between(s: string, pos: nat, end: nat): (r: string)
    requires pos <= end <= |s|
    ensures |r| == end - pos
    decreases end
  {
    if pos == end then "" else Between(s, pos, end - 1) + [s[end - 1]]
  }

  /** A line without its first character. */
  function Rest(line: string): (r: string)
    requires line != ""
    ensures |r| == |line| - 1
  {
    if |line| == 1 then "" else Rest(line[..|line| - 1]) + [line[|line| - 1]]
  }

  lemma {:induction false} RestIs(prefix: char, body: string)
    ensures Rest([prefix] + body) == body
  {
    if body != "" {
      RestIs(prefix, body[..|body| - 1]);
      assert ([prefix] + body)[..|body|] == [prefix] + body[..|body| - 1];
    }
  }

  lemma {:induction false} RestJoins(line: string)
    requires line != ""
    ensures [line[0]] + Rest(line) == line
  {
    if |line| > 1 {
      RestJoins(line[..|line| - 1]);
    }
  }

  function Str(s: string): Value {
    Value(false, s, None)
  }

  const NIL := Value(true, "", None)

  function Read(s: string, pos: nat): (r: Reading)
    requires pos <= |s|
    ensures r.Got? ==> pos < r.next <= |s|
    decreases |s| - pos, 0
  {
    var end := LineEnd(s, pos);
    if end == |s| then Failed(EndOfInput) else
      var line := Chop(Between(s, pos, end));
      if line == "" then Failed(EmptyResponse) else Dispatch(s, end + 1, line[0], Rest(line))
  }

  /** The rest of a reply, after a line with this prefix and body. */
  function Dispatch(s: string, pos: nat, prefix: char, body: string): (r: Reading)
    requires pos <= |s|
    ensures r.Got? ==> pos <= r.next <= |s|
    decreases |s| - pos, 3 + CountOf(body)
  {
    match prefix
    case '+' => Got(Str(body), pos)
    case '-' => Failed(ServerError(body))
    case ':' => Got(Str(body), pos)
    case '$' => ReadBulk(s, pos, body)
    case '*' => ReadArray(s, pos, body)
    case _ => Got(Str([prefix] + body), pos)
  }

  function ReadBulk(s: string, pos: nat, body: string): (r: Reading)
    requires pos <= |s|
    ensures r.Got? ==> pos <= r.next <= |s|
  {
    match Atoi(body)
    case None => Failed(BadLength(body))
    case Some(length) =>
      if length == -1 then Got(NIL, pos)
      else if length < -1 then Failed(NegativeSlice)
      else if pos + length + 2 > |s| then Failed(EndOfInput)
      else Got(Str(Between(s, pos, pos + length)), pos + length + 2)
  }

  function CountOf(body: string): nat {
    match Atoi(body)
    case Some(count) => if count > 0 then count else 0
    case None => 0
  }

  function ReadArray(s: string, pos: nat, body: string): (r: Reading)
    requires pos <= |s|
    ensures r.Got? ==> pos <= r.next <= |s|
    decreases |s| - pos, 2 + CountOf(body)
  {
    match Atoi(body)
    case None => Failed(BadCount(body))
    case Some(count) =>
      if count <= 0 then Got(Value(false, "", Some([])), pos)
      else
        ArrayOf(ReadItems(s, pos, count, []))
  }

  function ReadItems(s: string, pos: nat, count: nat, items: seq<Value>): (r: ItemsReading)
    requires pos <= |s|
    ensures r.GotItems? ==> pos <= r.next <= |s|
    decreases |s| - pos, 1 + count
  {
    if count == 0 then GotItems(items, pos) else
      match Read(s, pos)
      case Got(value, next) => ReadItems(s, next, count - 1, items + [value])
      case Failed(failure) => ItemFailed(failure)
  }

  class Reader {
    const input: string
    var pos: nat

    constructor (input: string)
      ensures this.input == input && pos == 0
    {
      this.input := input;
      pos := 0;
    }
  }

  /** Decodes one reply and advances the reader past it. */
  method ReadResponse(reader: Reader) returns (r: Reading)
    requires reader.pos <= |reader.input|
    modifies reader
    ensures r == Read(reader.input, old(reader.pos))
    ensures reader.pos <= |reader.input| && (r.Got? ==> reader.pos == r.next)
    decreases |reader.input| - reader.pos, 0
  {
    var s, pos := reader.input, reader.pos;
    var end := LineEnd(s, pos);
    if end == |s| {
      return Failed(EndOfInput);
    }
    reader.pos := end + 1;
    var line := Chop(Between(s, pos, end));
    if |line| == 0 {
      return Failed(EmptyResponse);
    }
    var body := Rest(line);
    match line[0] {
      case '+' => r := Got(Str(body), reader.pos);
      case '-' => r := Failed(ServerError(body));
      case ':' => r := Got(Str(body), reader.pos);
      case '$' =>
        r := ReadBulk(s, end + 1, body);
        if r.Got? {
          reader.pos := r.next;
        }
      case '*' => r := ReadArrayItems(reader, body);
      case _ =>
        RestJoins(line);
        r := Got(Str(line), reader.pos);
    }
  }

  method ReadArrayItems(reader: Reader, body: string) returns (r: Reading)
    requires reader.pos <= |reader.input|
    modifies reader
    ensures r == ReadArray(reader.input, old(reader.pos), body)
    ensures reader.pos <= |reader.input| && (r.Got? ==> reader.pos == r.next)
    decreases |reader.input| - reader.pos, 1
  {
    var parsed := Atoi(body);
    if parsed == None {
      return Failed(BadCount(body));
    }
    var count := parsed.value;
    if count <= 0 {
      return Got(Value(false, "", Some([])), reader.pos);
    }
    var items: seq<Value> := [];
    ghost var goal := ReadItems(reader.input, reader.pos, count, []);
    for i := 0 to count
      invariant old(reader.pos) <= reader.pos <= |reader.input|
      invariant ReadItems(reader.input, reader.pos, count - i, items) == goal
    {
      var item := ReadResponse(reader);
      if item.Failed? {
        return Failed(item.failure);
      }
      items := items + [item.value];
    }
    r := Got(Value(false, "", Some(items)), reader.pos);
  }

  // ---------- the parser undoes the printer ----------

  lemma {:induction false} BetweenIs(s: string, pos: nat, text: string)
    requires At(s, pos, text)
    ensures Between(s, pos, pos + |text|) == text
  {
    if text != "" {
      var n := |text| - 1;
      assert s[pos + n] == text[n];
      BetweenIs(s, pos, text[..n]);
    }
  }

  /** A reply line without a break in it is read whole. */
  predicate Unbroken(line: string) {
    '\n' !in line && (line == "" || line[|line| - 1] != '\r')
  }

  lemma NoEarlierBreak(line: string, i: nat)
    requires '\n' !in line && i <= |line|
    ensures (line + CRLF)[i] != '\n' && (line + CRLF)[|line| + 1] == '\n'
  {
    assert i < |line| ==> line[i] in line;
  }

  lemma LineEndsThere(s: string, pos: nat, line: string)
    requires At(s, pos, line + CRLF) && '\n' !in line
    ensures LineEnd(s, pos) == pos + |line| + 1
  {
    NoEarlierBreak(line, 0);
    assert s[pos + (|line| + 1)] == '\n';
    var i := LineEnd(s, pos) - pos;
    if i <= |line| {
      NoEarlierBreak(line, i);
    }
  }

  lemma LineIsRead(s: string, pos: nat, line: string)
    requires At(s, pos, line + CRLF) && Unbroken(line)
    ensures LineEnd(s, pos) == pos + |line| + 1
    ensures Chop(Between(s, pos, LineEnd(s, pos))) == line
  {
    LineEndsThere(s, pos, line);
    var raw := line + ['\r'];
    assert line + CRLF == raw + ['\n'];
    AtConcat(s, pos, raw, ['\n']);
    BetweenIs(s, pos, raw);
    assert raw[..|line|] == line;
  }

  /** A reply begins with its prefix and the rest of its first line. */
  lemma HeadIsRead(s: string, pos: nat, line: string)
    requires At(s, pos, line + CRLF) && Unbroken(line) && line != ""
    ensures pos + |line| + 2 <= |s| && Read(s, pos) == Dispatch(s, pos + |line| + 2, line[0], Rest(line))
  {
    LineIsRead(s, pos, line);
  }

  /** The replies the wire preserves: no error reply, simple strings free of line breaks. */
  ghost predicate Readable(r: Reply) {
    match r
    case SimpleString(value) => Unbroken(value)
    case ErrorReply(_) => false
    case Array(items) => forall i :: 0 <= i < |items| ==> Readable(items[i])
    case _ => true
  }

  /** Sizes a Go string or slice can have. */
  ghost predicate Sized(r: Reply) {
    match r
    case Bulk(value) => |value| <= MAX_INT
    case Array(items) => |items| <= MAX_INT && forall i :: 0 <= i < |items| ==> Sized(items[i])
    case _ => true
  }

  function Image(r: Reply): Value {
    match r
    case SimpleString(value) => Str(value)
    case ErrorReply(message) => Str(message)
    case Integer(number) => Str(Itoa(number))
    case Bulk(value) => Str(value)
    case NilBulk => NIL
    case Array(items) => Value(false, "", Some(Images(items)))
  }

  function Images(items: seq<Reply>): (r: seq<Value>)
    ensures |r| == |items|
  {
    if items == [] then [] else Images(items[..|items| - 1]) + [Image(items[|items| - 1])]
  }

  lemma NumberUnbroken(prefix: char, number: int)
    requires prefix != '\n'
    ensures Unbroken([prefix] + Itoa(number))
  {
    ItoaHasNoBreaks(number);
  }

  lemma NumberLine(s: string, pos: nat, prefix: char, number: int)
    requires At(s, pos, [prefix] + Itoa(number) + CRLF) && prefix != '\n'
    ensures var next := pos + |Itoa(number)| + 3;
      next <= |s| && Read(s, pos) == Dispatch(s, next, prefix, Itoa(number))
  {
    hide Itoa, Dispatch, LineEnd, Chop, Between;
    var line := [prefix] + Itoa(number);
    NumberUnbroken(prefix, number);
    HeadIsRead(s, pos, line);
    RestIs(prefix, Itoa(number));
  }

  lemma SimpleIsRead(s: string, pos: nat, value: string)
    requires At(s, pos, Serialize(SimpleString(value))) && Unbroken(value)
    ensures Read(s, pos) == Got(Str(value), pos + |value| + 3)
  {
    var line := "+" + value;
    HeadIsRead(s, pos, line);
    RestIs('+', value);
  }

  lemma IntegerIsRead(s: string, pos: nat, number: int)
    requires At(s, pos, Serialize(Integer(number)))
    ensures Read(s, pos) == Got(Str(Itoa(number)), pos + |Itoa(number)| + 3)
  {
    NumberLine(s, pos, ':', number);
  }

  lemma BulkIsRead(s: string, pos: nat, value: string)
    requires At(s, pos, Serialize(Bulk(value))) && |value| <= MAX_INT
    ensures Read(s, pos) == Got(Str(value), pos + |Serialize(Bulk(value))|)
  {
    hide Itoa, LineEnd, Chop, Read, At, Between;
    var head := "$" + Itoa(|value|) + CRLF;
    AtConcat(s, pos, head, value + CRLF);
    NumberLine(s, pos, '$', |value|);
    IntIsRead(|value|);
    AtConcat(s, pos + |head|, value, CRLF);
    BetweenIs(s, pos + |head|, value);
  }

  lemma NilIsRead(s: string, pos: nat)
    requires At(s, pos, Serialize(NilBulk))
    ensures Read(s, pos) == Got(NIL, pos + 5)
  {
    assert Itoa(-1) == "-1";
    assert Serialize(NilBulk) == ['$'] + Itoa(-1) + CRLF;
    NumberLine(s, pos, '$', -1);
    IntIsRead(-1);
  }

  function ArrayOf(r: ItemsReading): Reading {
    match r
    case GotItems(items, next) => Got(Value(false, "", Some(items)), next)
    case ItemFailed(failure) => Failed(failure)
  }

  lemma ArrayHead(s: string, pos: nat, n: nat)
    requires At(s, pos, "*" + Itoa(n) + CRLF) && n <= MAX_INT
    ensures var next := pos + |Itoa(n)| + 3; next <= |s| && Read(s, pos) == ArrayOf(ReadItems(s, next, n, []))
  {
    NumberLine(s, pos, '*', n);
    IntIsRead(n);
  }

  // ---------- the items of an array ----------

  /** ReadItems, over any reader of one reply. */
  function Fold(read: nat -> Reading, pos: nat, count: nat, items: seq<Value>): ItemsReading
    decreases count
  {
    if count == 0 then GotItems(items, pos) else
      match read(pos)
      case Got(value, next) => Fold(read, next, count - 1, items + [value])
      case Failed(failure) => ItemFailed(failure)
  }

  function Reads(s: string): nat -> Reading {
    (pos: nat) => if pos <= |s| then Read(s, pos) else Failed(EndOfInput)
  }

  lemma {:induction false} ReadItemsIsFold(s: string, pos: nat, count: nat, items: seq<Value>)
    requires pos <= |s|
    ensures ReadItems(s, pos, count, items) == Fold(Reads(s), pos, count, items)
    decreases count
  {
    if count > 0 {
      var first := Read(s, pos);
      if first.Got? {
        ReadItemsIsFold(s, first.next, count - 1, items + [first.value]);
      }
    }
  }

  /** Readings one after another, each from where the one before ended. */
  lemma {:induction false} FoldReads(read: nat -> Reading, at: seq<nat>, values: seq<Value>, i: nat)
    requires ReadsUpTo(read, at, values, i)
    ensures Fold(read, at[0], |values|, []) == Fold(read, at[i], |values| - i, values[..i])
    decreases i
  {
    if i > 0 {
      FoldReads(read, at, values, i - 1);
      assert values[..i] == values[..i - 1] + [values[i - 1]];
    }
  }

  /** Where the items of an array begin, and where the last one ends. */
  function Offsets(pos: nat, items: seq<Reply>): (at: seq<nat>)
    ensures |at| == |items| + 1 && at[0] == pos
  {
    if items == [] then [pos] else
      var front := Offsets(pos, items[..|items| - 1]);
      front + [front[|items| - 1] + |Serialize(items[|items| - 1])|]
  }

  lemma {:induction false} LastOffset(pos: nat, items: seq<Reply>)
    ensures Offsets(pos, items)[|items|] == pos + |SerializeAll(items)|
  {
    if items != [] {
      LastOffset(pos, items[..|items| - 1]);
    }
  }

  lemma NextOffset(pos: nat, items: seq<Reply>, i: nat)
    requires i < |items|
    ensures Offsets(pos, items)[i + 1] == if i < |items| - 1 then Offsets(pos, items[..|items| - 1])[i + 1]
      else Offsets(pos, items[..|items| - 1])[i] + |Serialize(items[i])|
    ensures Offsets(pos, items)[i] == Offsets(pos, items[..|items| - 1])[i]
  {
  }

  lemma {:induction false} ItemAt(s: string, pos: nat, items: seq<Reply>, i: nat)
    requires i < |items| && At(s, pos, SerializeAll(items))
    ensures var at := Offsets(pos, items);
      At(s, at[i], Serialize(items[i])) && at[i + 1] == at[i] + |Serialize(items[i])|
  {
    var front, last := items[..|items| - 1], items[|items| - 1];
    AtConcat(s, pos, SerializeAll(front), Serialize(last));
    NextOffset(pos, items, i);
    if i < |front| {
      ItemAt(s, pos, front, i);
    } else {
      LastOffset(pos, front);
    }
  }

  lemma ScalarIsRead(s: string, pos: nat, r: Reply)
    requires !r.Array? && Readable(r) && Sized(r) && At(s, pos, Serialize(r))
    ensures Read(s, pos) == Got(Image(r), pos + |Serialize(r)|)
  {
    match r
    case SimpleString(value) => SimpleIsRead(s, pos, value);
    case Integer(number) => IntegerIsRead(s, pos, number);
    case Bulk(value) => BulkIsRead(s, pos, value);
    case NilBulk => NilIsRead(s, pos);
  }

  lemma ArrayGets(s: string, pos: nat, n: nat, values: seq<Value>, next: nat)
    requires n <= MAX_INT && At(s, pos, "*" + Itoa(n) + CRLF)
    requires ReadItems(s, pos + |Itoa(n)| + 3, n, []) == GotItems(values, next)
    ensures Read(s, pos) == Got(Value(false, "", Some(values)), next)
  {
    ArrayHead(s, pos, n);
  }

  lemma ArrayIsRead(s: string, pos: nat, items: seq<Reply>, at: seq<nat>)
    requires |items| <= MAX_INT && At(s, pos, "*" + Itoa(|items|) + CRLF)
    requires |at| == |items| + 1 && at[0] == pos + |Itoa(|items|)| + 3 <= |s|
    requires forall k: nat :: k < |items| ==> ItemIsRead(s, at, items, k)
    ensures Read(s, pos) == Got(Value(false, "", Some(Images(items))), at[|items|])
  {
    hide Read, ItemIsRead, At, Itoa;
    ItemsAreRead(s, at, items);
    ArrayGets(s, pos, |items|, Images(items), at[|items|]);
  }

  /** Reading inverts Serialize for every nested tree of readable replies, and consumes
      exactly the bytes of the reply, whatever follows it. */
  lemma {:induction false} ReadInvertsSerialize(s: string, pos: nat, r: Reply)
    requires Readable(r) && Sized(r) && At(s, pos, Serialize(r))
    ensures Read(s, pos) == Got(Image(r), pos + |Serialize(r)|)
    decreases r
  {
    hide At, Offsets, Itoa;
    if r.Array? {
      var start := StartOf(s, pos, r.items);
      var at := Offsets(start, r.items);
      forall k: nat | k < |r.items| ensures ItemIsRead(s, at, r.items, k) {
        ItemAt(s, start, r.items, k);
        ReadInvertsSerialize(s, at[k], r.items[k]);
      }
      ArrayIsRead(s, pos, r.items, at);
      LastOffset(start, r.items);
    } else {
      ScalarIsRead(s, pos, r);
    }
  }

  /** Where the items of the array serialized at pos begin. */
  lemma StartOf(s: string, pos: nat, items: seq<Reply>) returns (start: nat)
    requires At(s, pos, Serialize(Array(items)))
    ensures start == pos + |Itoa(|items|)| + 3 && At(s, start, SerializeAll(items))
    ensures At(s, pos, "*" + Itoa(|items|) + CRLF) && start + |SerializeAll(items)| == pos + |Serialize(Array(items))|
  {
    var head := "*" + Itoa(|items|) + CRLF;
    AtConcat(s, pos, head, SerializeAll(items));
    start := pos + |head|;
  }

  ghost predicate ItemIsRead(s: string, at: seq<nat>, items: seq<Reply>, k: nat) {
    && k < |items| && k + 1 < |at| && at[k] <= |s|
    && Read(s, at[k]) == Got(Image(items[k]), at[k + 1])
  }

  lemma {:induction false} ImageAt(items: seq<Reply>, i: nat)
    requires i < |items|
    ensures Images(items)[i] == Image(items[i])
  {
    if i < |items| - 1 {
      ImageAt(items[..|items| - 1], i);
    }
  }

  /** The first i readings give the first i values. */
  ghost predicate ReadsUpTo(read: nat -> Reading, at: seq<nat>, values: seq<Value>, i: nat) {
    && |at| == |values| + 1 && i <= |values|
    && forall k {:trigger values[k]} :: 0 <= k < i ==> read(at[k]) == Got(values[k], at[k + 1])
  }

  lemma ItemsReadUpTo(s: string, at: seq<nat>, items: seq<Reply>, i: nat)
    requires |at| == |items| + 1 && i <= |items|
    requires forall k: nat :: k < i ==> ItemIsRead(s, at, items, k)
    ensures ReadsUpTo(Reads(s), at, Images(items), i)
  {
    var read, values := Reads(s), Images(items);
    forall k {:trigger values[k]} | 0 <= k < i ensures read(at[k]) == Got(values[k], at[k + 1]) {
      assert ItemIsRead(s, at, items, k);
      ImageAt(items, k);
    }
  }

  lemma ItemsAreRead(s: string, at: seq<nat>, items: seq<Reply>)
    requires |at| == |items| + 1 && at[0] <= |s|
    requires forall k: nat :: k < |items| ==> ItemIsRead(s, at, items, k)
    ensures ReadItems(s, at[0], |items|, []) == GotItems(Images(items), at[|items|])
  {
    ReadItemsIsFold(s, at[0], |items|, []);
    ItemsReadUpTo(s, at, items, |items|);
    FoldReads(Reads(s), at, Images(items), |items|);
    assert Images(items)[..|items|] == Images(items);
  }

  // ---------- and only those ----------

  lemma {:induction false} ChopKeepsFirst(line: string)
    requires line != "" && line[0] != '\r' && line[0] != '\n'
    ensures Chop(line) != "" && Chop(line)[0] == line[0]
  {
    if line[|line| - 1] == '\r' || line[|line| - 1] == '\n' {
      ChopKeepsFirst(line[..|line| - 1]);
    }
  }

  lemma {:induction false} BetweenFirst(s: string, pos: nat, end: nat)
    requires pos < end <= |s|
    ensures Between(s, pos, end)[0] == s[pos]
  {
    if pos + 1 < end {
      BetweenFirst(s, pos, end - 1);
    }
  }

  /** What is read from the first line of a reply, broken or not. */
  lemma FirstLineIsRead(s: string, pos: nat, text: string, prefix: char)
    requires At(s, pos, text) && text != "" && text[0] == prefix && prefix != '\r' && prefix != '\n'
    requires '\n' in text
    ensures var end := LineEnd(s, pos); var line := Chop(Between(s, pos, end));
      end < |s| && line != "" && Read(s, pos) == Dispatch(s, end + 1, prefix, Rest(line))
  {
    var i :| 0 <= i < |text| && text[i] == '\n';
    assert s[pos + i] == '\n' && s[pos + 0] == prefix;
    BetweenFirst(s, pos, LineEnd(s, pos));
    ChopKeepsFirst(Between(s, pos, LineEnd(s, pos)));
  }

  /** An error reply is an error for the client, whatever its message. */
  lemma ErrorIsReported(s: string, pos: nat, message: string)
    requires At(s, pos, Serialize(ErrorReply(message)))
    ensures Read(s, pos).Failed? && Read(s, pos).failure.ServerError?
  {
    FirstLineIsRead(s, pos, Serialize(ErrorReply(message)), '-');
  }

  lemma ChopEnds(line: string, value: string)
    requires value != "" && value[|value| - 1] == '\r'
    ensures Chop(line) != value
  {
  }

  /** A simple string is cut at its first newline. */
  lemma NewlineCuts(s: string, pos: nat, value: string, i: nat)
    requires At(s, pos, Serialize(SimpleString(value))) && i < |value| && value[i] == '\n'
    ensures LineEnd(s, pos) <= pos + |value|
  {
    assert s[pos + (i + 1)] == Serialize(SimpleString(value))[i + 1] == '\n';
  }

  lemma BrokenIsMisread(s: string, pos: nat, value: string)
    requires At(s, pos, Serialize(SimpleString(value))) && !Unbroken(value)
    ensures Read(s, pos).Got? ==> Read(s, pos).value != Str(value)
  {
    hide At, LineEnd, Between;
    FirstLineIsRead(s, pos, Serialize(SimpleString(value)), '+');
    var raw := Between(s, pos, LineEnd(s, pos));
    if '\n' in value {
      var i :| 0 <= i < |value| && value[i] == '\n';
      NewlineCuts(s, pos, value, i);
    } else {
      ChopEnds(raw, "+" + value);
      RestJoins(Chop(raw));
    }
  }

  lemma {:induction false} FoldKeeps(read: nat -> Reading, pos: nat, count: nat, before: seq<Value>)
    ensures var r := Fold(read, pos, count, before); r.GotItems? ==> before <= r.items
    decreases count
  {
    if count > 0 && read(pos).Got? {
      FoldKeeps(read, read(pos).next, count - 1, before + [read(pos).value]);
    }
  }

  /** One wrong value makes the list wrong. */
  lemma FoldMisreads(read: nat -> Reading, at: seq<nat>, values: seq<Value>, i: nat)
    requires ReadsUpTo(read, at, values, i) && i < |values|
    requires read(at[i]).Got? ==> read(at[i]).value != values[i]
    ensures var r := Fold(read, at[0], |values|, []); r.GotItems? ==> r.items != values
  {
    FoldReads(read, at, values, i);
    var first := read(at[i]);
    if first.Got? {
      FoldKeeps(read, first.next, |values| - i - 1, values[..i] + [first.value]);
      assert (values[..i] + [first.value])[i] == first.value;
    }
  }

  ghost predicate Misread(s: string, pos: nat, r: Reply) {
    pos <= |s| && (Read(s, pos).Got? ==> Read(s, pos).value != Image(r))
  }

  lemma {:induction false} FirstUnreadable(items: seq<Reply>) returns (i: nat)
    requires exists k :: 0 <= k < |items| && !Readable(items[k])
    ensures i < |items| && !Readable(items[i]) && forall k: nat :: k < i ==> Readable(items[k])
  {
    i := 0;
    while Readable(items[i])
      invariant i < |items| && forall k: nat :: k < i ==> Readable(items[k])
      invariant exists k :: i <= k < |items| && !Readable(items[k])
      decreases |items| - i
    {
      i := i + 1;
    }
  }

  lemma ItemsAreMisread(s: string, at: seq<nat>, items: seq<Reply>, i: nat)
    requires |at| == |items| + 1 && at[0] <= |s| && i < |items|
    requires forall k: nat :: k < i ==> ItemIsRead(s, at, items, k)
    requires Misread(s, at[i], items[i])
    ensures var r := ReadItems(s, at[0], |items|, []); r.GotItems? ==> r.items != Images(items)
  {
    ReadItemsIsFold(s, at[0], |items|, []);
    ItemsReadUpTo(s, at, items, i);
    ImageAt(items, i);
    FoldMisreads(Reads(s), at, Images(items), i);
  }

  lemma ScalarIsMisread(s: string, pos: nat, r: Reply)
    requires !r.Array? && !Readable(r) && At(s, pos, Serialize(r))
    ensures Misread(s, pos, r)
  {
    match r
    case SimpleString(value) => BrokenIsMisread(s, pos, value);
    case ErrorReply(message) => ErrorIsReported(s, pos, message);
  }

  lemma ArrayIsMisread(s: string, pos: nat, items: seq<Reply>, start: nat, i: nat)
    requires i < |items| <= MAX_INT && At(s, pos, "*" + Itoa(|items|) + CRLF) && start == pos + |Itoa(|items|)| + 3
    requires forall k: nat :: k < i ==> ItemIsRead(s, Offsets(start, items), items, k)
    requires Misread(s, Offsets(start, items)[i], items[i])
    ensures Read(s, pos).Got? ==> Read(s, pos).value != Value(false, "", Some(Images(items)))
  {
    hide Read, At, Itoa;
    var at := Offsets(start, items);
    hide Offsets, ItemIsRead, Misread;
    ArrayHead(s, pos, |items|);
    ItemsAreMisread(s, at, items, i);
  }

  /** A tree with an error or a broken simple string in it is never read as itself. */
  lemma {:induction false} UnreadableIsMisread(s: string, pos: nat, r: Reply)
    requires !Readable(r) && Sized(r) && At(s, pos, Serialize(r))
    ensures Misread(s, pos, r)
    decreases r
  {
    hide At, Offsets, Itoa;
    if r.Array? {
      var start := StartOf(s, pos, r.items);
      var i := FirstUnreadable(r.items);
      forall k: nat | k < i ensures ItemIsRead(s, Offsets(start, r.items), r.items, k) {
        ItemAt(s, start, r.items, k);
        ReadInvertsSerialize(s, Offsets(start, r.items)[k], r.items[k]);
      }
      ItemAt(s, start, r.items, i);
      UnreadableIsMisread(s, Offsets(start, r.items)[i], r.items[i]);
      ArrayIsMisread(s, pos, r.items, start, i);
    } else {
      ScalarIsMisread(s, pos, r);
    }
  }

  /** A reply is read back as what it says, by exactly its own bytes, if and only if it
      holds no error reply and no simple string with a line break. */
  lemma ReadExactly(s: string, pos: nat, r: Reply)
    requires Sized(r) && At(s, pos, Serialize(r))
    ensures Read(s, pos) == Got(Image(r), pos + |Serialize(r)|) <==> Readable(r)
  {
    if Readable(r) {
      ReadInvertsSerialize(s, pos, r);
    } else {
      UnreadableIsMisread(s, pos, r);
    }
  }

  // ---------- any text at all ----------

  lemma {:induction false} BetweenIsSlice(s: string, pos: nat, end: nat)
    requires pos <= end <= |s|
    ensures Between(s, pos, end) == s[pos..end]
    decreases end
  {
    if pos < end {
      BetweenIsSlice(s, pos, end - 1);
      assert s[pos..end] == s[pos..end - 1] + [s[end - 1]];
    }
  }

  predicate Returns(s: string) {
    forall i :: 0 <= i < |s| ==> s[i] == '\r'
  }

  lemma {:induction false} ReturnsAreCut(line: string, cr: string)
    requires Unbroken(line) && Returns(cr)
    ensures Chop(line + cr) == line
  {
    if cr == "" {
      assert line + cr == line;
    } else {
      var text, front := line + cr, cr[..|cr| - 1];
      assert text[..|text| - 1] == line + front;
      ReturnsAreCut(line, front);
    }
  }

  lemma LineEndIs(s: string, pos: nat, raw: string)
    requires At(s, pos, raw + "\n") && '\n' !in raw
    ensures LineEnd(s, pos) == pos + |raw| < |s| && s[pos..pos + |raw|] == raw
  {
    AtConcat(s, pos, raw, "\n");
    assert s[pos + |raw| + 0] == "\n"[0];
    forall j | pos <= j < pos + |raw| ensures s[j] != '\n' {
      assert s[pos + (j - pos)] == raw[j - pos] && raw[j - pos] in raw;
    }
  }

  /** Any line: without its line break it is taken apart into its first character and the rest. */
  lemma AnyLineIsRead(s: string, pos: nat, line: string, cr: string)
    requires At(s, pos, line + cr + "\n") && Unbroken(line) && Returns(cr)
    ensures var next := pos + |line| + |cr| + 1;
      next <= |s| && Read(s, pos) == if line == "" then Failed(EmptyResponse) else Dispatch(s, next, line[0], line[1..])
  {
    hide At, LineEnd, Between, Dispatch;
    var raw := line + cr;
    assert '\n' !in raw;
    LineEndIs(s, pos, raw);
    BetweenIsSlice(s, pos, pos + |raw|);
    ReturnsAreCut(line, cr);
    if line != "" {
      RestIs(line[0], line[1..]);
      assert line == [line[0]] + line[1..];
    }
  }

  /** What the first character of a line decides, for every text after it. */
  lemma PrefixDecides(s: string, pos: nat, line: string, cr: string)
    requires At(s, pos, line + cr + "\n") && Unbroken(line) && Returns(cr) && line != ""
    ensures var next, first, body := pos + |line| + |cr| + 1, line[0], line[1..];
      && next <= |s|
      && (first == '+' || first == ':' ==> Read(s, pos) == Got(Value(false, body, None), next))
      && (first == '-' ==> Read(s, pos) == Failed(ServerError(body)))
      && (first !in "+-:$*" ==> Read(s, pos) == Got(Value(false, line, None), next))
      && (first == '$' ==> Read(s, pos) == match Atoi(body)
            case None => Failed(BadLength(body))
            case Some(n) =>
              if n == -1 then Got(Value(true, "", None), next)
              else if n < -1 then Failed(NegativeSlice)
              else if next + n + 2 <= |s| then Got(Value(false, s[next..next + n], None), next + n + 2)
              else Failed(EndOfInput))
      && (first == '*' ==> match Atoi(body)
            case None => Read(s, pos) == Failed(BadCount(body))
            case Some(n) => n <= 0 ==> Read(s, pos) == Got(Value(false, "", Some([])), next))
  {
    hide Atoi, LineEnd, Between, At, Read;
    AnyLineIsRead(s, pos, line, cr);
    var next, body := pos + |line| + |cr| + 1, line[1..];
    assert line == [line[0]] + body;
    if line[0] == '$' && Atoi(body).Some? && 0 <= Atoi(body).value <= |s| - next - 2 {
      BetweenIsSlice(s, next, next + Atoi(body).value);
    }
  }

  /** Without a line break there is no reply. */
  lemma UnendedIsNotRead(s: string, pos: nat)
    requires pos <= |s| && '\n' !in s[pos..]
    ensures Read(s, pos) == Failed(EndOfInput)
  {
    forall i | pos <= i < |s| ensures s[i] != '\n' {
      assert s[i] == s[pos..][i - pos];
    }
  }

  /** One reply of each kind as it goes over the wire. */
  lemma OnTheWire()
    ensures Serialize(SimpleString("OK")) == "+OK\r\n" && Serialize(ErrorReply("no")) == "-ERR no\r\n"
    ensures Serialize(Integer(-45)) == ":-45\r\n" && Serialize(NilBulk) == "$-1\r\n"
    ensures Serialize(Bulk("ab")) == "$2\r\nab\r\n"
    ensures Serialize(Array([])) == "*0\r\n" && Serialize(Array([NilBulk])) == "*1\r\n$-1\r\n"
  {
    hide Itoa;
    SomeNumbers();
    assert SerializeAll([]) == "" && [NilBulk][..0] == [];
    assert SerializeAll([NilBulk]) == Serialize(NilBulk);
  }
}
