/** The binary heap that Go's container/heap maintains on a slice.  heap.go uses it
    twice (candidates by smallest distance, found set by largest) and engine.go once
    (top-K by smallest score); the three differ only in the key that Less compares. */
module Heaps {

  function Parent(i: nat): nat
    requires i > 0
  {
    (i - 1) / 2
  }

  ghost predicate NotAbove<T>(key: T -> real, s: seq<T>, p: nat, c: nat) {
    c < |s| && p < |s| ==> key(s[p]) <= key(s[c])
  }

  ghost predicate Ordered<T>(key: T -> real, s: seq<T>) {
    forall c: nat {:trigger NotAbove(key, s, Parent(c), c)} :: c > 0 ==> NotAbove(key, s, Parent(c), c)
  }

  /** Ordered but for `j` against its parent; the children of `j` respect their grandparent. */
  ghost predicate RisingAt<T>(key: T -> real, s: seq<T>, j: nat) {
    && (forall c: nat {:trigger NotAbove(key, s, Parent(c), c)} :: c > 0 && c != j ==> NotAbove(key, s, Parent(c), c))
    && (forall c: nat {:trigger NotAbove(key, s, Parent(j), c)} ::
          j > 0 && c > 0 && Parent(c) == j ==> NotAbove(key, s, Parent(j), c))
  }

  /** Ordered but for `i` against its children, which respect the parent of `i`. */
  ghost predicate SinkingAt<T>(key: T -> real, s: seq<T>, i: nat) {
    && (forall c: nat {:trigger NotAbove(key, s, Parent(c), c)} ::
          c > 0 && Parent(c) != i ==> NotAbove(key, s, Parent(c), c))
    && (forall c: nat {:trigger NotAbove(key, s, Parent(i), c)} ::
          i > 0 && c > 0 && Parent(c) == i ==> NotAbove(key, s, Parent(i), c))
  }

  /** In an ordered heap the root has the smallest key of all. */
  lemma {:induction false} RootIsLeast<T>(key: T -> real, s: seq<T>, i: nat)
    requires Ordered(key, s) && i < |s|
    ensures key(s[0]) <= key(s[i])
  {
    if i > 0 {
      RootIsLeast(key, s, Parent(i));
      assert NotAbove(key, s, Parent(i), i);
    }
  }

  function Swapped<T>(s: seq<T>, i: nat, j: nat): (r: seq<T>)
    requires i < |s| && j < |s|
    ensures |r| == |s| && multiset(r) == multiset(s)
    ensures r[i] == s[j] && r[j] == s[i] && forall k :: 0 <= k < |s| && k != i && k != j ==> r[k] == s[k]
  {
    s[i := s[j]][j := s[i]]
  }

  lemma RiseStep<T>(key: T -> real, s: seq<T>, j: nat)
    requires 0 < j < |s| && RisingAt(key, s, j) && key(s[j]) < key(s[Parent(j)])
    ensures RisingAt(key, Swapped(s, Parent(j), j), Parent(j))
  {
    var p, t := Parent(j), Swapped(s, Parent(j), j);
    forall c: nat | 0 < c && c != p ensures NotAbove(key, t, Parent(c), c) {
      assert NotAbove(key, s, Parent(c), c) || c == j;
      assert Parent(c) == j ==> NotAbove(key, s, p, c);
    }
    forall c: nat | p > 0 && 0 < c && Parent(c) == p ensures NotAbove(key, t, Parent(p), c) {
      assert NotAbove(key, s, Parent(p), p);
      assert c != j ==> NotAbove(key, s, Parent(c), c);
    }
  }

  lemma SinkStep<T>(key: T -> real, s: seq<T>, i: nat, j: nat)
    requires LeastChild(key, s, i, j) && SinkingAt(key, s, i) && key(s[j]) < key(s[i])
    ensures SinkingAt(key, Swapped(s, i, j), j)
  {
    var t := Swapped(s, i, j);
    forall c: nat | 0 < c && Parent(c) != j ensures NotAbove(key, t, Parent(c), c) {
      if c == i {
        assert NotAbove(key, s, Parent(i), j);
      } else if Parent(c) != i {
        assert NotAbove(key, s, Parent(c), c);
      }
    }
    forall c: nat | 0 < c && Parent(c) == j ensures NotAbove(key, t, Parent(j), c) {
      assert NotAbove(key, s, Parent(c), c);
    }
  }

  /** Position j holds a child of i, none smaller. */
  ghost predicate LeastChild<T>(key: T -> real, s: seq<T>, i: nat, j: nat) {
    i < j < |s| && Parent(j) == i && forall c: nat :: 0 < c < |s| && Parent(c) == i ==> key(s[j]) <= key(s[c])
  }

  lemma ChildIsLeast<T>(key: T -> real, s: seq<T>, i: nat, j: nat)
    requires LeastChild(key, s, i, j)
    ensures i < j < |s| && forall c: nat :: 0 < c < |s| && Parent(c) == i ==> key(s[j]) <= key(s[c])
  {
  }

  /** Sinking ends where no child is smaller. */
  lemma SinkEnds<T>(key: T -> real, s: seq<T>, i: nat)
    requires SinkingAt(key, s, i) && forall c: nat :: 0 < c < |s| && Parent(c) == i ==> key(s[i]) <= key(s[c])
    ensures Ordered(key, s)
  {
    forall c: nat | c > 0 ensures NotAbove(key, s, Parent(c), c) {
      assert Parent(c) != i || NotAbove(key, s, i, c);
    }
  }

  class Heap<T> {
    const key: T -> real
    var items: seq<T>

    ghost predicate Valid()
      reads this
    {
      Ordered(key, items)
    }

    constructor (key: T -> real)
      ensures Valid() && this.key == key && items == []
    {
      this.key := key;
      items := [];
    }

    /** Moves items[j0] towards the root until its parent is no larger. */
    method Up(j0: nat)
      requires j0 < |items| && RisingAt(key, items, j0)
      modifies this`items
      ensures Valid() && multiset(items) == old(multiset(items))
    {
      var j: nat := j0;
      while j > 0 && key(items[j]) < key(items[Parent(j)])
        invariant j < |items| && RisingAt(key, items, j)
        invariant multiset(items) == old(multiset(items))
      {
        RiseStep(key, items, j);
        items := Swapped(items, Parent(j), j);
        j := Parent(j);
      }
    }

    method SmallerChild(i: nat) returns (j: nat)
      requires 2 * i + 1 < |items|
      ensures LeastChild(key, items, i, j)
    {
      j := 2 * i + 1;
      if j + 1 < |items| && key(items[j + 1]) < key(items[j]) {
        j := j + 1;
      }
      forall c: nat | 0 < c < |items| && Parent(c) == i ensures key(items[j]) <= key(items[c]) {
        assert c == 2 * i + 1 || c == 2 * i + 2;
      }
    }

    /** Moves items[0] away from the root until both its children are no smaller. */
    method Down()
      requires SinkingAt(key, items, 0)
      modifies this`items
      ensures Valid() && multiset(items) == old(multiset(items))
    {
      hide SinkingAt, Ordered, LeastChild;
      var i: nat := 0;
      while 2 * i + 1 < |items|
        invariant SinkingAt(key, items, i)
        invariant multiset(items) == old(multiset(items))
        decreases |items| - i
      {
        var j := SmallerChild(i);
        ChildIsLeast(key, items, i, j);
        if key(items[i]) <= key(items[j]) {
          break;
        }
        SinkStep(key, items, i, j);
        items := Swapped(items, i, j);
        i := j;
      }
      SinkEnds(key, items, i);
    }

    method Push(x: T)
      requires Valid()
      modifies this`items
      ensures Valid() && multiset(items) == old(multiset(items)) + multiset{x}
      ensures |items| == old(|items|) + 1
    {
      ghost var before := items;
      items := items + [x];
      forall c: nat | c > 0 && c != |before| ensures NotAbove(key, items, Parent(c), c) {
        assert NotAbove(key, before, Parent(c), c);
      }
      Up(|items| - 1);
      assert |items| == |multiset(items)| == |before + [x]|;
    }

    /** The least element, without removing it. */
    method Peek() returns (x: T)
      requires Valid() && items != []
      ensures x == items[0] && forall y :: y in items ==> key(x) <= key(y)
    {
      x := items[0];
      forall y | y in items ensures key(x) <= key(y) {
        var i :| 0 <= i < |items| && items[i] == y;
        RootIsLeast(key, items, i);
      }
    }

    method Pop() returns (x: T)
      requires Valid() && items != []
      modifies this`items
      ensures Valid() && x in old(items) && forall y :: y in old(items) ==> key(x) <= key(y)
      ensures multiset(items) == old(multiset(items)) - multiset{x}
      ensures |items| == old(|items|) - 1
    {
      x := Peek();
      ghost var before := items;
      var n := |items| - 1;
      items := Swapped(items, 0, n);
      assert items == items[..n] + [x];
      items := items[..n];
      forall c: nat | c > 0 && Parent(c) != 0 ensures NotAbove(key, items, Parent(c), c) {
        assert NotAbove(key, before, Parent(c), c);
      }
      Down();
      assert |items| == |multiset(items)| == n;
    }

    /** Overwrites the root and restores the order, as engine.go does with heap.Fix. */
    method ReplaceRoot(x: T)
      requires Valid() && items != []
      modifies this`items
      ensures Valid() && |items| == old(|items|)
      ensures multiset(items) == old(multiset(items)) - multiset{old(items[0])} + multiset{x}
    {
      ghost var before := items;
      items := items[0 := x];
      forall c: nat | c > 0 && Parent(c) != 0 ensures NotAbove(key, items, Parent(c), c) {
        assert NotAbove(key, before, Parent(c), c);
      }
      Down();
      assert |items| == |multiset(items)| == |before[0 := x]|;
    }
  }
}
