/** What Go's standard library does with text, as far as the codecs use it. */
module Text {

  datatype Option<+T> = None | Some(value: T)

  /** The bytes a character takes in UTF-8. */
  function Width(ch: char): nat {
    var code := ch as int;
    if code < 0x80 then 1 else if code < 0x800 then 2 else if code < 0x1_0000 then 3 else 4
  }

  function Size(s: string): nat {
    if s == "" then 0 else Size(s[..|s| - 1]) + Width(s[|s| - 1])
  }

  lemma {:induction false} SizeConcat(a: string, b: string)
    ensures Size(a + b) == Size(a) + Size(b)
  {
    if b == "" {
      assert a + b == a;
    } else {
      assert (a + b)[..|a + b| - 1] == a + b[..|b| - 1];
      SizeConcat(a, b[..|b| - 1]);
    }
  }

  /** unicode.IsSpace. */
  predicate IsSpace(ch: char) {
    var code := ch as int;
    9 <= code <= 13 || code == 32 || code == 0x85 || code == 0xA0 || code == 0x1680 || 0x2000 <= code <= 0x200A
    || code == 0x2028 || code == 0x2029 || code == 0x202F || code == 0x205F || code == 0x3000
  }

  function TrimRight(s: string): (r: string)
    ensures r <= s && (r == "" || !IsSpace(r[|r| - 1]))
  {
    if s == "" || !IsSpace(s[|s| - 1]) then s else TrimRight(s[..|s| - 1])
  }

  /** TrimRight with "\r\n". */
  function Chop(line: string): (r: string)
    ensures |r| <= |line| && (r == "" || (r[|r| - 1] != '\r' && r[|r| - 1] != '\n'))
  {
    if line != "" && (line[|line| - 1] == '\r' || line[|line| - 1] == '\n') then Chop(line[..|line| - 1]) else line
  }

  function TrimLeft(s: string): (r: string)
    ensures |r| <= |s| && (r == "" || !IsSpace(r[0]))
  {
    if s == "" || !IsSpace(s[0]) then s else TrimLeft(s[1..])
  }

  lemma {:induction false} TrimLeftKeeps(s: string, ch: char)
    requires ch !in s
    ensures ch !in TrimLeft(s)
  {
    if s != "" && IsSpace(s[0]) {
      TrimLeftKeeps(s[1..], ch);
    }
  }

  function TrimSpace(s: string): string {
    TrimRight(TrimLeft(s))
  }

  /** The position of the first ch, or the length if there is none. */
  function IndexOf(s: string, ch: char): (n: nat)
    ensures n <= |s| && ch !in s[..n] && (n < |s| ==> s[n] == ch)
  {
    if s == "" || s[0] == ch then 0 else
      var n := IndexOf(s[1..], ch);
      assert s[..n + 1] == [s[0]] + s[1..][..n];
      n + 1
  }

  lemma {:induction false} IndexIsFirst(a: string, ch: char, b: string)
    requires ch !in a
    ensures IndexOf(a + [ch] + b, ch) == |a|
  {
    if a != "" {
      IndexIsFirst(a[1..], ch, b);
      assert (a + [ch] + b)[1..] == a[1..] + [ch] + b;
    }
  }

  lemma SliceKeeps(s: string, i: nat, j: nat, ch: char)
    requires i <= j <= |s| && ch !in s
    ensures ch !in s[i..j]
  {
  }

  lemma Assoc<T>(a: seq<T>, b: seq<T>, c: seq<T>)
    ensures a + (b + c) == (a + b) + c
  {
  }
}

/** A part of a sequence, by its position. */
module Spans {

  ghost predicate At<T>(s: seq<T>, pos: nat, part: seq<T>) {
    pos + |part| <= |s| && forall i :: 0 <= i < |part| ==> s[pos + i] == part[i]
  }

  lemma AtConcat<T>(s: seq<T>, pos: nat, a: seq<T>, b: seq<T>)
    requires At(s, pos, a + b)
    ensures At(s, pos, a) && At(s, pos + |a|, b)
  {
    forall i | 0 <= i < |a| ensures s[pos + i] == a[i] {
      assert (a + b)[i] == a[i];
    }
    forall i | 0 <= i < |b| ensures s[pos + |a| + i] == b[i] {
      assert (a + b)[|a| + i] == b[i];
    }
  }

  lemma AtOne<T>(s: seq<T>, pos: nat, x: T)
    requires At(s, pos, [x])
    ensures pos < |s| && s[pos] == x
  {
    assert s[pos + 0] == [x][0];
  }

  lemma AtIndex<T>(s: seq<T>, pos: nat, part: seq<T>, i: nat)
    requires At(s, pos, part) && i < |part|
    ensures pos + i < |s| && s[pos + i] == part[i]
  {
  }
}
