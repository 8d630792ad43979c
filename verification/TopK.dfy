/** Brute-force top-K, engine.go.  The kernel that scores one entry is a parameter: an
    entry it rejects (dimension mismatch, zero vector) is skipped. */
module TopK {
  import opened Heaps
  import opened Cosine

  datatype Entry = Entry(id: string, vector: Vector, metadata: map<string, string>)
  datatype Result = Result(id: string, score: real, metadata: map<string, string>)

  type Kernel = Entry -> Similarity

  function Score(r: Result): real { r.score }

  function Scored(kernel: Kernel, e: Entry): seq<Result> {
    match kernel(e)
    case Score(value) => [Result(e.id, value, e.metadata)]
    case _ => []
  }

  /** Every scorable entry with its score. */
  function Bag(kernel: Kernel, entries: seq<Entry>): multiset<Result> {
    if entries == [] then multiset{}
    else Bag(kernel, entries[..|entries| - 1]) + multiset(Scored(kernel, entries[|entries| - 1]))
  }

  ghost predicate Best(held: multiset<Result>, seen: multiset<Result>, k: nat) {
    && held <= seen
    && |held| == (if k < |seen| then k else |seen|)
    && forall x, y :: x in held && y in seen - held ==> y.score <= x.score
  }

  ghost predicate Descending(r: seq<Result>) {
    forall i, j :: 0 <= i < j < |r| ==> r[j].score <= r[i].score
  }

  /** r lists k of the results with the highest scores, best first: all of them if fewer. */
  ghost predicate Top(r: seq<Result>, all: multiset<Result>, k: nat) {
    Descending(r) && Best(multiset(r), all, k)
  }

  // ---------- the answer's scores do not depend on the order of arrival ----------

  lemma SubBag(a: multiset<Result>, b: multiset<Result>)
    requires a <= b
    ensures |a| <= |b|
    ensures |a| == |b| ==> a == b
  {
    assert b == a + (b - a);
  }

  lemma PrefixBag(r: seq<Result>, i: nat, x: Result)
    requires i <= |r| && forall j :: i <= j < |r| ==> r[j] != x
    ensures multiset(r)[x] == multiset(r[..i])[x]
  {
    assert r == r[..i] + r[i..];
  }

  lemma PrefixIsFewer(s: seq<Result>, i: nat, x: Result)
    requires i <= |s|
    ensures multiset(s[..i])[x] <= multiset(s)[x]
  {
    assert s == s[..i] + s[i..];
  }

  /** A result that scores more than r[i] is held, and held before position i. */
  lemma HighIsEarly(r: seq<Result>, all: multiset<Result>, k: nat, i: nat, x: Result)
    requires Top(r, all, k) && i < |r| && r[i].score < x.score
    ensures all[x] <= multiset(r[..i])[x]
  {
    assert r[i] in multiset(r);
    assert x !in all - multiset(r);
    PrefixBag(r, i, x);
  }

  lemma HighCopies(s: seq<Result>, i: nat, x: Result)
    requires Descending(s) && i < |s| && x in s[..i + 1]
    ensures s[i].score <= x.score && multiset(s[..i + 1])[x] <= multiset(s)[x]
  {
    var j :| 0 <= j <= i && s[j] == x;
    PrefixIsFewer(s, i + 1, x);
  }

  lemma NotBelow(r: seq<Result>, s: seq<Result>, all: multiset<Result>, k: nat, i: nat)
    requires Top(r, all, k) && Top(s, all, k) && i < |r| && |s| == |r|
    ensures s[i].score <= r[i].score
  {
    hide Top;
    if r[i].score < s[i].score {
      var high, early := multiset(s[..i + 1]), multiset(r[..i]);
      forall x | x in high ensures high[x] <= early[x] {
        HighBefore(r, s, all, k, i, x);
      }
      assert |high| == i + 1 && |early| == i;
      SubBag(high, early);
    }
  }

  lemma HighBefore(r: seq<Result>, s: seq<Result>, all: multiset<Result>, k: nat, i: nat, x: Result)
    requires Top(r, all, k) && Top(s, all, k) && i < |r| && |s| == |r|
    requires r[i].score < s[i].score && x in s[..i + 1]
    ensures multiset(s[..i + 1])[x] <= multiset(r[..i])[x]
  {
    HighCopies(s, i, x);
    HighIsEarly(r, all, k, i, x);
  }

  /** Any two top-K lists of the same results carry the same scores, position by position. */
  lemma TopScoresAreUnique(r: seq<Result>, s: seq<Result>, all: multiset<Result>, k: nat)
    requires Top(r, all, k) && Top(s, all, k)
    ensures |r| == |s| && forall i :: 0 <= i < |r| ==> r[i].score == s[i].score
  {
    assert |multiset(r)| == |multiset(s)|;
    forall i | 0 <= i < |r| ensures r[i].score == s[i].score {
      NotBelow(r, s, all, k, i);
      NotBelow(s, r, all, k, i);
    }
  }

  // ---------- the bounded heap ----------

  lemma StillShort(held: multiset<Result>, seen: multiset<Result>, k: nat, x: Result)
    requires Best(held, seen, k) && |held| < k
    ensures Best(held + multiset{x}, seen + multiset{x}, k)
  {
    SubBag(held, seen);
  }

  lemma Replaced(held: multiset<Result>, seen: multiset<Result>, k: nat, root: Result, x: Result)
    requires Best(held, seen, k) && |held| == k && root in held && root.score < x.score
    requires forall y :: y in held ==> root.score <= y.score
    ensures Best(held - multiset{root} + multiset{x}, seen + multiset{x}, k)
  {
    var after, all := held - multiset{root} + multiset{x}, seen + multiset{x};
    assert |after| == k;
    assert all - after == (seen - held) + multiset{root};
    SubBag(held, seen);
  }

  lemma Skipped(held: multiset<Result>, seen: multiset<Result>, k: nat, root: Result, x: Result)
    requires Best(held, seen, k) && |held| == k && x.score <= root.score
    requires forall y :: y in held ==> root.score <= y.score
    ensures Best(held, seen + multiset{x}, k)
  {
    var all := seen + multiset{x};
    assert all - held == (seen - held) + multiset{x};
    SubBag(held, seen);
  }

  /** Fills the heap up to k, then lets a strictly better result displace the worst one. */
  method Offer(h: Heap<Result>, k: nat, x: Result, ghost seen: multiset<Result>)
    requires h.Valid() && h.key == Score && k > 0 && Best(multiset(h.items), seen, k)
    modifies h`items
    ensures h.Valid() && Best(multiset(h.items), seen + multiset{x}, k)
  {
    ghost var held := multiset(h.items);
    assert |held| == |h.items|;
    if |h.items| < k {
      StillShort(held, seen, k, x);
      h.Push(x);
    } else {
      var root := h.Peek();
      assert root in held && forall y :: y in held ==> y in h.items;
      if x.score > root.score {
        Replaced(held, seen, k, root, x);
        h.ReplaceRoot(x);
      } else {
        Skipped(held, seen, k, root, x);
      }
    }
  }

  /** t is sorted, and nothing still in the heap scores less than any of it. */
  ghost predicate Tail(t: seq<Result>, items: multiset<Result>) {
    && Descending(t)
    && forall x, y :: x in items && y in t ==> y.score <= x.score
  }

  lemma TailGrows(t: seq<Result>, items: multiset<Result>, x: Result)
    requires Tail(t, items) && x in items
    requires forall y :: y in items ==> x.score <= y.score
    ensures Tail([x] + t, items - multiset{x})
  {
    forall j | 0 <= j < |t| ensures t[j].score <= x.score {
      assert t[j] in t;
    }
  }

  method PopWorst(h: Heap<Result>, ghost t: seq<Result>) returns (x: Result)
    requires h.Valid() && h.key == Score && h.items != [] && Tail(t, multiset(h.items))
    modifies h`items
    ensures h.Valid() && |h.items| == old(|h.items|) - 1
    ensures multiset(h.items) + multiset{x} == old(multiset(h.items))
    ensures Tail([x] + t, multiset(h.items))
  {
    ghost var before := h.items;
    x := h.Pop();
    assert forall y :: y in multiset(before) ==> y in before;
    TailGrows(t, multiset(before), x);
  }

  lemma NoTail(items: multiset<Result>)
    ensures Tail([], items)
  {
  }

  lemma TailDescends(t: seq<Result>, items: multiset<Result>)
    requires Tail(t, items)
    ensures Descending(t)
  {
  }

  lemma OneMoreInTail(t: seq<Result>, x: Result)
    ensures multiset([x] + t) == multiset(t) + multiset{x}
  {
  }

  /** Empties the heap into an array from the back: the smallest score goes last. */
  method Extract(h: Heap<Result>) returns (r: seq<Result>)
    requires h.Valid() && h.key == Score
    modifies h`items
    ensures Descending(r) && multiset(r) == old(multiset(h.items))
  {
    hide Tail, Ordered;
    var n := |h.items|;
    var results := new Result[n];
    var i := n;
    assert results[i..] == [];
    NoTail(multiset(h.items));
    while i > 0
      invariant h.Valid() && 0 <= i <= n && |h.items| == i
      invariant multiset(results[i..]) + multiset(h.items) == old(multiset(h.items))
      invariant Tail(results[i..], multiset(h.items))
    {
      ghost var tail := results[i..];
      var x := PopWorst(h, tail);
      i := i - 1;
      results[i] := x;
      assert results[i..] == [x] + tail;
      OneMoreInTail(tail, x);
    }
    assert results[0..] == results[..];
    r := results[..];
    TailDescends(r, multiset(h.items));
  }

  // ---------- one goroutine ----------

  /** The heap holds the best of the first i entries. */
  ghost predicate Holds(h: Heap<Result>, kernel: Kernel, entries: seq<Entry>, i: nat, k: nat)
    reads h
  {
    i <= |entries| && h.Valid() && h.key == Score && Best(multiset(h.items), Bag(kernel, entries[..i]), k)
  }

  lemma BagNext(kernel: Kernel, entries: seq<Entry>, i: nat)
    requires i < |entries|
    ensures Bag(kernel, entries[..i + 1]) == Bag(kernel, entries[..i]) + multiset(Scored(kernel, entries[i]))
  {
    assert entries[..i + 1][..i] == entries[..i];
  }

  method ScoreNext(h: Heap<Result>, kernel: Kernel, entries: seq<Entry>, i: nat, k: nat)
    requires k > 0 && i < |entries| && Holds(h, kernel, entries, i, k)
    modifies h`items
    ensures Holds(h, kernel, entries, i + 1, k)
  {
    var similarity := kernel(entries[i]);
    BagNext(kernel, entries, i);
    if similarity.Score? {
      Offer(h, k, Result(entries[i].id, similarity.value, entries[i].metadata), Bag(kernel, entries[..i]));
    }
  }

  method SingleThread(kernel: Kernel, entries: seq<Entry>, k: nat) returns (r: seq<Result>)
    requires k > 0
    ensures Top(r, Bag(kernel, entries), k)
  {
    var h := new Heap<Result>(Score);
    var i := 0;
    while i < |entries|
      invariant i <= |entries| && fresh(h) && Holds(h, kernel, entries, i, k)
    {
      ScoreNext(h, kernel, entries, i, k);
      i := i + 1;
    }
    assert entries[..i] == entries;
    r := Extract(h);
  }

  // ---------- the worker pool ----------

  function Flat(chunks: seq<seq<Entry>>): seq<Entry> {
    if chunks == [] then [] else Flat(chunks[..|chunks| - 1]) + chunks[|chunks| - 1]
  }

  function Work(chunks: seq<seq<Entry>>): nat {
    if chunks == [] then 0 else Work(chunks[..|chunks| - 1]) + |chunks[|chunks| - 1]|
  }

  function Pending(kernel: Kernel, chunks: seq<seq<Entry>>): multiset<Result> {
    if chunks == [] then multiset{}
    else Pending(kernel, chunks[..|chunks| - 1]) + Bag(kernel, chunks[|chunks| - 1])
  }

  lemma {:induction false} BagConcat(kernel: Kernel, a: seq<Entry>, b: seq<Entry>)
    ensures Bag(kernel, a + b) == Bag(kernel, a) + Bag(kernel, b)
  {
    if b == [] {
      assert a + b == a;
    } else {
      assert (a + b)[..|a + b| - 1] == a + b[..|b| - 1];
      BagConcat(kernel, a, b[..|b| - 1]);
    }
  }

  lemma BagHead(kernel: Kernel, a: seq<Entry>)
    requires a != []
    ensures Bag(kernel, a) == multiset(Scored(kernel, a[0])) + Bag(kernel, a[1..])
  {
    assert a == [a[0]] + a[1..];
    BagConcat(kernel, [a[0]], a[1..]);
    assert Bag(kernel, [a[0]][..0]) == multiset{};
  }

  lemma {:induction false} PendingIsFlat(kernel: Kernel, chunks: seq<seq<Entry>>)
    ensures Pending(kernel, chunks) == Bag(kernel, Flat(chunks))
  {
    if chunks != [] {
      PendingIsFlat(kernel, chunks[..|chunks| - 1]);
      BagConcat(kernel, Flat(chunks[..|chunks| - 1]), chunks[|chunks| - 1]);
    }
  }

  /** Worker w takes the next entry of its chunk. */
  lemma {:induction false} TakeOne(kernel: Kernel, chunks: seq<seq<Entry>>, w: nat)
    requires w < |chunks| && chunks[w] != []
    ensures var rest := chunks[w := chunks[w][1..]];
            Work(rest) == Work(chunks) - 1
            && Pending(kernel, chunks) == Pending(kernel, rest) + multiset(Scored(kernel, chunks[w][0]))
  {
    var n := |chunks| - 1;
    var rest := chunks[w := chunks[w][1..]];
    if w == n {
      BagHead(kernel, chunks[w]);
      assert rest[..n] == chunks[..n];
    } else {
      TakeOne(kernel, chunks[..n], w);
      assert rest[..n] == chunks[..n][w := chunks[w][1..]];
    }
  }

  lemma {:induction false} NoWorkLeft(kernel: Kernel, chunks: seq<seq<Entry>>)
    requires forall w :: 0 <= w < |chunks| ==> chunks[w] == []
    ensures Pending(kernel, chunks) == multiset{}
  {
    if chunks != [] {
      NoWorkLeft(kernel, chunks[..|chunks| - 1]);
    }
  }

  lemma WorkersSuffice(n: nat, workers: nat, size: nat, count: nat)
    requires workers > 0 && size == (n + workers - 1) / workers
    requires count > 0 ==> (count - 1) * size < n
    ensures count <= workers
  {
    assert workers * size >= n;
    if count > workers {
      Times(workers, count - 1, size);
    }
  }

  lemma Times(a: nat, b: nat, c: nat)
    requires a <= b
    ensures a * c <= b * c
  {
  }

  /** Cuts the entries into at most `workers` non-empty chunks: each entry is in one of them. */
  method Chunks(entries: seq<Entry>, workers: nat) returns (chunks: seq<seq<Entry>>)
    requires workers > 0 && entries != []
    ensures Flat(chunks) == entries && |chunks| <= workers
    ensures forall w :: 0 <= w < |chunks| ==> chunks[w] != []
    ensures forall w :: 0 <= w < |chunks| - 1 ==> |chunks[w]| == (|entries| + workers - 1) / workers
  {
    var size := (|entries| + workers - 1) / workers;
    chunks := [];
    var i := 0;
    while i < |entries|
      invariant size > 0 && 0 <= i && i <= |chunks| * size
      invariant |chunks| > 0 ==> (|chunks| - 1) * size < |entries|
      invariant i < |entries| ==> i == |chunks| * size
      invariant Flat(chunks) == entries[..if i < |entries| then i else |entries|]
      invariant forall w :: 0 <= w < |chunks| ==> chunks[w] != []
      invariant forall w :: 0 <= w < |chunks| && (w < |chunks| - 1 || i < |entries|) ==> |chunks[w]| == size
      decreases |entries| - i
    {
      var end := if i + size > |entries| then |entries| else i + size;
      ghost var before := chunks;
      chunks := chunks + [entries[i..end]];
      assert chunks[..|chunks| - 1] == before;
      i := i + size;
    }
    WorkersSuffice(|entries|, workers, size, |chunks|);
  }

  /** What has been collected, what is on the channel and what is still to be scored. */
  ghost predicate Underway(kernel: Kernel, seen: multiset<Result>, channel: seq<Result>, pending: seq<seq<Entry>>,
                           all: multiset<Result>) {
    seen + multiset(channel) + Pending(kernel, pending) == all
  }

  lemma Received(kernel: Kernel, seen: multiset<Result>, channel: seq<Result>, pending: seq<seq<Entry>>,
                 all: multiset<Result>)
    requires channel != [] && Underway(kernel, seen, channel, pending, all)
    ensures Underway(kernel, seen + multiset{channel[0]}, channel[1..], pending, all)
  {
    assert channel == [channel[0]] + channel[1..];
  }

  lemma Sent(kernel: Kernel, seen: multiset<Result>, channel: seq<Result>, pending: seq<seq<Entry>>,
             all: multiset<Result>, w: nat)
    requires w < |pending| && pending[w] != [] && Underway(kernel, seen, channel, pending, all)
    ensures Underway(kernel, seen, channel + Scored(kernel, pending[w][0]), pending[w := pending[w][1..]], all)
  {
    TakeOne(kernel, pending, w);
  }

  predicate Busy(pending: seq<seq<Entry>>) {
    exists w :: 0 <= w < |pending| && pending[w] != []
  }

  ghost predicate Collecting(h: Heap<Result>, kernel: Kernel, k: nat, seen: multiset<Result>, channel: seq<Result>,
                             pending: seq<seq<Entry>>, all: multiset<Result>)
    reads h
  {
    && h.Valid() && h.key == Score && k > 0
    && Best(multiset(h.items), seen, k)
    && Underway(kernel, seen, channel, pending, all)
  }

  method Receive(h: Heap<Result>, kernel: Kernel, k: nat, ghost seen: multiset<Result>, channel: seq<Result>,
                 pending: seq<seq<Entry>>, ghost all: multiset<Result>)
    requires channel != [] && Collecting(h, kernel, k, seen, channel, pending, all)
    modifies h`items
    ensures Collecting(h, kernel, k, seen + multiset{channel[0]}, channel[1..], pending, all)
  {
    Received(kernel, seen, channel, pending, all);
    Offer(h, k, channel[0], seen);
  }

  method Send(kernel: Kernel, channel: seq<Result>, pending: seq<seq<Entry>>, ghost seen: multiset<Result>,
              ghost all: multiset<Result>)
    returns (channel': seq<Result>, pending': seq<seq<Entry>>)
    requires Busy(pending) && Underway(kernel, seen, channel, pending, all)
    ensures Underway(kernel, seen, channel', pending', all)
    ensures 2 * Work(pending') + |channel'| < 2 * Work(pending) + |channel|
  {
    var w: nat :| w < |pending| && pending[w] != [];
    Sent(kernel, seen, channel, pending, all, w);
    TakeOne(kernel, pending, w);
    channel' := channel + Scored(kernel, pending[w][0]);
    pending' := pending[w := pending[w][1..]];
  }

  /** Workers send on a channel that never fills up, the collector receives from it; at every
      step any worker with work left, or the collector, may be the one to move. */
  method Parallel(kernel: Kernel, entries: seq<Entry>, k: nat, workers: nat) returns (r: seq<Result>)
    requires k > 0 && workers > 0 && entries != []
    ensures Top(r, Bag(kernel, entries), k)
  {
    var pending := Chunks(entries, workers);
    PendingIsFlat(kernel, pending);
    ghost var all := Bag(kernel, entries);
    var channel: seq<Result> := [];
    var h := new Heap<Result>(Score);
    ghost var seen: multiset<Result> := multiset{};
    while channel != [] || Busy(pending)
      invariant fresh(h) && Collecting(h, kernel, k, seen, channel, pending, all)
      decreases 2 * Work(pending) + |channel|
    {
      var collectorMoves: bool := *;
      if channel != [] && (collectorMoves || !Busy(pending)) {
        Receive(h, kernel, k, seen, channel, pending, all);
        seen := seen + multiset{channel[0]};
        channel := channel[1..];
      } else {
        channel, pending := Send(kernel, channel, pending, seen, all);
      }
    }
    NoWorkLeft(kernel, pending);
    assert seen == all;
    r := Extract(h);
  }

  /** TopK: nothing for no entries or k <= 0; k capped; a pool only above 100 entries.
      Whatever the worker count and the schedule, the scores are those of one goroutine. */
  method FindTop(kernel: Kernel, entries: seq<Entry>, k: int, workers: nat) returns (r: seq<Result>)
    ensures entries == [] || k <= 0 ==> r == []
    ensures entries != [] && k > 0 ==> Top(r, Bag(kernel, entries), k)
    ensures k > 0 ==> |r| == if k < Scorable(kernel, entries) then k else Scorable(kernel, entries)
    ensures forall x :: x in r ==> exists i :: 0 <= i < |entries| && Makes(kernel, entries[i], x)
  {
    if |entries| == 0 || k <= 0 {
      return [];
    }
    var most := if k > |entries| then |entries| else k;
    if |entries| <= 100 || workers <= 1 {
      r := SingleThread(kernel, entries, most);
    } else {
      r := Parallel(kernel, entries, most, workers);
    }
    BagSize(kernel, entries);
    TopIsOfEntries(kernel, entries, k, r);
  }

  // ---------- the answer, entry by entry ----------

  /** What the kernel makes of an entry, as a result. */
  predicate Makes(kernel: Kernel, e: Entry, x: Result) {
    x.id == e.id && x.metadata == e.metadata && kernel(e) == Similarity.Score(x.score)
  }

  lemma {:induction false} BagIsMade(kernel: Kernel, entries: seq<Entry>, x: Result)
    ensures x in Bag(kernel, entries) <==> exists i :: 0 <= i < |entries| && Makes(kernel, entries[i], x)
  {
    if entries != [] {
      var n := |entries| - 1;
      BagIsMade(kernel, entries[..n], x);
      assert x in Bag(kernel, entries) <==> x in Bag(kernel, entries[..n]) || Makes(kernel, entries[n], x);
    }
  }

  function Scorable(kernel: Kernel, entries: seq<Entry>): nat {
    if entries == [] then 0
    else Scorable(kernel, entries[..|entries| - 1]) + if kernel(entries[|entries| - 1]).Score? then 1 else 0
  }

  lemma {:induction false} BagIsCounted(kernel: Kernel, entries: seq<Entry>)
    ensures |Bag(kernel, entries)| == Scorable(kernel, entries)
  {
    if entries != [] {
      BagIsCounted(kernel, entries[..|entries| - 1]);
    }
  }

  /** A top-K list holds k results, or one for each entry that can be scored; each is made of an
      entry; and an entry without its result in it scores no more than any that has. */
  lemma TopIsOfEntries(kernel: Kernel, entries: seq<Entry>, k: nat, r: seq<Result>)
    requires Top(r, Bag(kernel, entries), k)
    ensures |r| == if k < Scorable(kernel, entries) then k else Scorable(kernel, entries)
    ensures forall x :: x in r ==> exists i :: 0 <= i < |entries| && Makes(kernel, entries[i], x)
    ensures forall i, x :: 0 <= i < |entries| && Makes(kernel, entries[i], x) && x !in r ==>
      |r| == k && forall y :: y in r ==> x.score <= y.score
  {
    hide Bag, Top, Makes, Scorable;
    BagIsCounted(kernel, entries);
    TopSize(r, Bag(kernel, entries), k);
    forall x | x in r ensures exists i :: 0 <= i < |entries| && Makes(kernel, entries[i], x) {
      BagIsMade(kernel, entries, x);
    }
    forall i, x | 0 <= i < |entries| && Makes(kernel, entries[i], x) && x !in r
      ensures |r| == k && forall y :: y in r ==> x.score <= y.score
    {
      BagIsMade(kernel, entries, x);
      LeftOutIsLower(r, Bag(kernel, entries), k, x);
    }
  }

  lemma TopSize(r: seq<Result>, all: multiset<Result>, k: nat)
    requires Top(r, all, k)
    ensures |r| == (if k < |all| then k else |all|) && forall x :: x in r ==> x in all
  {
    assert |multiset(r)| == |r|;
    forall x | x in r ensures x in all {
      assert x in multiset(r);
    }
  }

  lemma LeftOutIsLower(r: seq<Result>, all: multiset<Result>, k: nat, x: Result)
    requires Top(r, all, k) && x in all && x !in r
    ensures |r| == k && forall y :: y in r ==> x.score <= y.score
  {
    assert |multiset(r)| == |r|;
    SubBag(multiset(r), all);
    assert x !in multiset(r) && x in all - multiset(r);
    forall y | y in r ensures x.score <= y.score {
      assert y in multiset(r);
    }
  }

  lemma {:induction false} BagSize(kernel: Kernel, entries: seq<Entry>)
    ensures |Bag(kernel, entries)| <= |entries|
  {
    if entries != [] {
      BagSize(kernel, entries[..|entries| - 1]);
      assert |multiset(Scored(kernel, entries[|entries| - 1]))| <= 1;
    }
  }
}
