/** Little-endian words and lists in a byte buffer: a writer, a reader, and one inversion lemma
    for all the loops of the snapshot codec. */
module Binary {
  import opened Spans
  import opened Text

  type Byte = b: int | 0 <= b < 256
  type Word = n: nat | n < 0x1_0000_0000
  type Bytes = seq<Byte>

  datatype Error = TooSmall | ChecksumMismatch | BadMagic | BadVersion | Truncated | BadMetadata | IdOutOfRange

  datatype Reading<+T> = Got(value: T, next: nat) | Bad(error: Error) {
    predicate IsFailure() { Bad? }

    function PropagateFailure<U>(): Reading<U>
      requires Bad?
    {
      Bad(error)
    }

    function Extract(): (r: Reading<T>)
      requires Got?
      ensures r.Got?
    {
      this
    }
  }

  function U32(n: Word): (b: Bytes)
    ensures |b| == 4
  {
    var n1 := n / 256;
    var n2 := n1 / 256;
    var n3 := n2 / 256;
    [n % 256, n1 % 256, n2 % 256, n3]
  }

  function WordOf(b0: Byte, b1: Byte, b2: Byte, b3: Byte): Word {
    b0 + 256 * (b1 + 256 * (b2 + 256 * b3))
  }

  lemma WordOfU32(n: Word)
    ensures var w := U32(n); WordOf(w[0], w[1], w[2], w[3]) == n
  {
  }

  function ReadU32(b: Bytes, pos: nat): Reading<Word> {
    if pos + 4 > |b| then Bad(Truncated)
    else Got(WordOf(b[pos], b[pos + 1], b[pos + 2], b[pos + 3]), pos + 4)
  }

  function ReadBytes(b: Bytes, pos: nat, n: nat): Reading<Bytes> {
    if pos + n > |b| then Bad(Truncated) else Got(b[pos..pos + n], pos + n)
  }

  lemma AtStart(p: Bytes, q: Bytes)
    ensures At(p + q, 0, p) && At(p + q, |p|, q)
  {
  }

  lemma U32IsRead(b: Bytes, pos: nat, n: Word)
    requires At(b, pos, U32(n))
    ensures ReadU32(b, pos) == Got(n, pos + 4)
  {
    var w := U32(n);
    WordOfU32(n);
    assert b[pos + 0] == w[0] && b[pos + 1] == w[1] && b[pos + 2] == w[2] && b[pos + 3] == w[3];
  }

  lemma BytesAreRead(b: Bytes, pos: nat, part: Bytes)
    requires At(b, pos, part)
    ensures ReadBytes(b, pos, |part|) == Got(part, pos + |part|)
  {
    assert b[pos..pos + |part|] == part;
  }

  // ---------- lists ----------

  /** The items written one after another. */
  function Concat<T>(write: T -> Bytes, items: seq<T>): Bytes {
    if items == [] then [] else Concat(write, items[..|items| - 1]) + write(items[|items| - 1])
  }

  /** n items read one after another. */
  function Repeat<T>(read: nat -> Reading<T>, pos: nat, n: nat): (r: Reading<seq<T>>)
    ensures r.Got? ==> |r.value| == n
    decreases n
  {
    if n == 0 then Got([], pos) else
      match Repeat(read, pos, n - 1)
      case Bad(error) => Bad(error)
      case Got(items, next) =>
        match read(next)
        case Bad(error) => Bad(error)
        case Got(item, end) => Got(items + [item], end)
  }

  /** A failed read ends the loop. */
  lemma {:induction false} FailsEarly<T>(read: nat -> Reading<T>, pos: nat, i: nat, n: nat)
    requires i <= n && Repeat(read, pos, i).Bad?
    ensures Repeat(read, pos, n).Bad? && Repeat(read, pos, n).error == Repeat(read, pos, i).error
    decreases n
  {
    if i < n {
      FailsEarly(read, pos, i, n - 1);
    }
  }

  ghost predicate Inverts<T(!new)>(b: Bytes, write: T -> Bytes, read: nat -> Reading<T>, item: T) {
    forall pos: nat {:trigger At(b, pos, write(item))} :: At(b, pos, write(item)) ==>
      read(pos) == Got(item, pos + |write(item)|)
  }

  ghost predicate InvertsAll<T(!new)>(b: Bytes, write: T -> Bytes, read: nat -> Reading<T>, items: seq<T>) {
    forall i :: 0 <= i < |items| ==> Inverts(b, write, read, items[i])
  }

  /** Whatever reads every item back reads the list back, and stops at its end. */
  lemma {:induction false} RepeatInvertsConcat<T(!new)>(b: Bytes, pos: nat, write: T -> Bytes, read: nat -> Reading<T>,
                                                        items: seq<T>)
    requires At(b, pos, Concat(write, items))
    requires InvertsAll(b, write, read, items)
    ensures Repeat(read, pos, |items|) == Got(items, pos + |Concat(write, items)|)
  {
    hide At;
    if items != [] {
      var front, last := items[..|items| - 1], items[|items| - 1];
      var next := pos + |Concat(write, front)|;
      AtConcat(b, pos, Concat(write, front), write(last));
      RepeatInvertsConcat(b, pos, write, read, front);
      assert Inverts(b, write, read, last);
      RepeatNext(read, pos, |front|, front, next, last, next + |write(last)|);
      assert items == front + [last];
    }
  }

  lemma RepeatNone<T>(read: nat -> Reading<T>, pos: nat)
    ensures Repeat(read, pos, 0) == Got([], pos)
  {
  }

  lemma RepeatNext<T>(read: nat -> Reading<T>, pos: nat, n: nat, items: seq<T>, next: nat, item: T, end: nat)
    requires Repeat(read, pos, n) == Got(items, next) && read(next) == Got(item, end)
    ensures Repeat(read, pos, n + 1) == Got(items + [item], end)
  {
  }

  lemma ConcatNext<T>(write: T -> Bytes, items: seq<T>, i: nat)
    requires i < |items|
    ensures Concat(write, items[..i + 1]) == Concat(write, items[..i]) + write(items[i])
  {
    assert items[..i + 1][..i] == items[..i];
  }

  lemma ConcatAll<T>(write: T -> Bytes, items: seq<T>)
    ensures Concat(write, items[..|items|]) == Concat(write, items)
  {
    assert items[..|items|] == items;
  }

  /** Appending one after another, and nesting to the right. */
  lemma Nest(a: Bytes, b: Bytes, c: Bytes, d: Bytes, e: Bytes, f: Bytes, g: Bytes)
    ensures a + b + c + d + e + f + g == a + (b + (c + (d + (e + (f + g)))))
  {
    Assoc(a + b + c + d + e, f, g);
    Assoc(a + b + c + d, e, f + g);
    Assoc(a + b + c, d, e + (f + g));
    Assoc(a + b, c, d + (e + (f + g)));
    Assoc(a, b, c + (d + (e + (f + g))));
  }
}
