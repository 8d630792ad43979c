/** What one command means for the next: a write is what a later read returns, until it
    expires, and touches nothing else. */
module ServerLaws {
  import opened Text
  import opened Decimal
  import opened CommandText
  import opened Vmset
  import opened StoreSpec
  import opened ServerSpec
  import opened Agreement
  import Vset

  /** The reply of the server to a command whose handler comes back. */
  function Reply(n: Numerals, w: World, now: Time, name: string, args: seq<string>): Response {
    Execute(n, w, now, true, Command(name, args), Answers).1
  }

  function Do(n: Numerals, w: World, now: Time, name: string, args: seq<string>): World {
    Execute(n, w, now, true, Command(name, args), Answers).0
  }

  /** Nothing but one key differs. */
  predicate OnlyKey(w: World, w': World, key: string) {
    w'.kv - {key} == w.kv - {key} && w'.vectors == w.vectors && w'.indexes == w.indexes
  }

  /** SET, then GET at any later time. */
  lemma SetIsRead(n: Numerals, w: World, now: Time, key: string, value: string, later: Time, other: string)
    ensures var w' := Do(n, w, now, "SET", [key, value]);
      && Reply(n, w', later, "GET", [key]) == Bulk(value)
      && Reply(n, w', later, "TTL", [key]) == Integer(-1)
      && (other != key ==> Reply(n, w', later, "GET", [other]) == Reply(n, w, later, "GET", [other]))
      && Reply(n, w, now, "SET", [key, value]) == Okay && OnlyKey(w, w', key)
  {
    hide ToUpper;
    Capitals("SET");
    Capitals("GET");
    Capitals("TTL");
  }

  /** SET with EX: the value is there up to and at its expiry, and gone after; TTL counts down. */
  lemma SetExIsRead(n: Numerals, w: World, now: Time, key: string, value: string, seconds: int, later: Time)
    requires 0 < seconds <= MAX_INT && now <= later
    ensures var w' := Do(n, w, now, "SET", [key, value, "EX", Itoa(seconds)]);
      var left := now + seconds * SECOND - later;
      && Reply(n, w', later, "GET", [key]) == (if left >= 0 then Bulk(value) else Nil)
      && Reply(n, w', later, "TTL", [key]) == Integer(if left > 0 then left / SECOND else -2)
      && Reply(n, w, now, "SET", [key, value, "EX", Itoa(seconds)]) == Okay && OnlyKey(w, w', key)
  {
    hide ToUpper, Itoa, Atoi;
    Capitals("SET");
    Capitals("GET");
    Capitals("TTL");
    Capitals("EX");
    IntIsRead(seconds);
  }

  /** SET looks at EX and its number, in any case, or at key and value alone; the rest is ignored. */
  lemma SetIgnoresTheRest(n: Numerals, w: World, now: Time, args: seq<string>)
    requires |args| >= 2
    ensures var k := if |args| >= 4 && ToUpper(args[2]) == "EX" then 4 else 2;
      Do(n, w, now, "SET", args) == Do(n, w, now, "SET", args[..k])
      && Reply(n, w, now, "SET", args) == Reply(n, w, now, "SET", args[..k])
  {
    hide ToUpper, Atoi;
    Capitals("SET");
  }

  /** EXPIRE acts on a live key only, and sets its remaining time. */
  lemma ExpireIsRead(n: Numerals, w: World, now: Time, key: string, seconds: int, later: Time)
    requires 0 < seconds <= MAX_INT && now <= later
    ensures var live := key in w.kv && !w.kv[key].Expired(now);
      var w' := Do(n, w, now, "EXPIRE", [key, Itoa(seconds)]);
      && Reply(n, w, now, "EXPIRE", [key, Itoa(seconds)]) == Integer(if live then 1 else 0)
      && (live ==> (Reply(n, w', later, "GET", [key])
                    == if later <= now + seconds * SECOND then Bulk(w.kv[key].value) else Nil))
      && (!live ==> w' == w) && OnlyKey(w, w', key)
  {
    hide ToUpper, Itoa, Atoi;
    Capitals("EXPIRE");
    Capitals("GET");
    IntIsRead(seconds);
  }

  lemma DelIsRead(n: Numerals, w: World, now: Time, keys: seq<string>, later: Time, key: string)
    requires keys != []
    ensures var w' := Do(n, w, now, "DEL", keys);
      && Reply(n, w, now, "DEL", keys) == Integer(|set k | k in keys && k in w.kv|)
      && Reply(n, w', later, "GET", [key]) == (if key in keys then Nil else Reply(n, w, later, "GET", [key]))
      && w'.vectors == w.vectors && w'.indexes == w.indexes
  {
    hide ToUpper, Del;
    Capitals("DEL");
    Capitals("GET");
    DelCounts(w.kv, keys);
  }

  // ---------- vectors ----------

  /** What a namespace shows under an id. */
  function VectorOf(w: World, now: Time, ns: string, id: string): Option<Indexed> {
    Shown(w.vectors, now, ns, id)
  }

  /** VSET stores the parsed vector under its id, and no other vector changes; it is there until
      its own TTL, or else the namespace's default, has passed, even if the handler dies in the
      index afterwards. */
  lemma VSetIsRead(n: Numerals, w: World, now: Time, args: seq<string>, fate: Fate, later: Time, ns: string, id: string)
    requires ParseVSet(n, args).Some? && now <= later
    ensures var a := ParseVSet(n, args).value;
      var w' := Execute(n, w, now, true, Command("VSET", args), fate).0;
      var default := NamespaceOf(w.vectors, a.ns);
      && (ns != a.ns || id != a.id ==> VectorOf(w', later, ns, id) == VectorOf(w, later, ns, id))
      && (a.ttl > 0 ==> (VectorOf(w', later, a.ns, a.id)
                         == if later <= now + a.ttl then Some(Indexed(a.vector, a.metadata)) else None))
      && (a.ttl == 0 && !default.hasDefaultTTL ==>
            VectorOf(w', later, a.ns, a.id) == Some(Indexed(a.vector, a.metadata)))
      && (a.ttl == 0 && default.hasDefaultTTL ==>
            (VectorOf(w', later, a.ns, a.id)
             == if later <= now + default.defaultTTL then Some(Indexed(a.vector, a.metadata)) else None))
  {
    hide ToUpper, ParseVSet, Insert;
    Capitals("VSET");
  }

  /** VDEL and VNS DROP remove exactly what they name, from the store and from the index. */
  lemma VDelIsRead(n: Numerals, w: World, now: Time, ns: string, id: string, later: Time, ns': string, id': string)
    ensures var w' := Do(n, w, now, "VDEL", [ns, id]);
      && VectorOf(w', later, ns', id') == (if ns' == ns && id' == id then None else VectorOf(w, later, ns', id'))
      && Held(w'.indexes, ns', id') == (if ns' == ns && id' == id then None else Held(w.indexes, ns', id'))
      && w'.kv == w.kv
      && Reply(n, w, now, "VDEL", [ns, id]) == Integer(if ns in w.vectors && id in w.vectors[ns].entries then 1 else 0)
  {
    hide ToUpper;
    Capitals("VDEL");
  }

  lemma DropIsRead(n: Numerals, w: World, now: Time, ns: string, later: Time, ns': string, id': string)
    ensures var w' := Do(n, w, now, "VNS", ["DROP", ns]);
      && VectorOf(w', later, ns', id') == (if ns' == ns then None else VectorOf(w, later, ns', id'))
      && Held(w'.indexes, ns', id') == (if ns' == ns then None else Held(w.indexes, ns', id'))
      && w'.kv == w.kv && ns !in w'.indexes && (ns' != ns ==> (ns' in w'.indexes <==> ns' in w.indexes))
      && Reply(n, w, now, "VNS", ["DROP", ns]) == Integer(if ns in w.vectors then 1 else 0)
  {
    hide ToUpper;
    Capitals("VNS");
    Capitals("DROP");
  }

  /** The vector has no deadline of its own. */
  predicate Undated(w: World, ns: string, id: string) {
    ns in w.vectors && id in w.vectors[ns].entries && !w.vectors[ns].entries[id].hasTTL
  }

  /** VEXPIRE: a vector without a deadline is there until the time is up and not after; one that has
      a deadline is there exactly as long as before; nothing else changes. */
  lemma VExpireIsRead(n: Numerals, w: World, now: Time, ns: string, seconds: int, later: Time, ns': string, id: string)
    requires 0 < seconds <= MAX_INT && now <= later
    ensures var w' := Do(n, w, now, "VEXPIRE", [ns, Itoa(seconds)]);
      && Reply(n, w, now, "VEXPIRE", [ns, Itoa(seconds)]) == Integer(if ns in w.vectors then 1 else 0)
      && VectorOf(w', later, ns', id)
         == (if ns' == ns && Undated(w, ns, id) && later > now + seconds * SECOND then None
             else VectorOf(w, later, ns', id))
      && w'.kv == w.kv && w'.indexes == w.indexes && w'.vectors.Keys == w.vectors.Keys
      && (forall m :: m in w.vectors && m != ns ==> w'.vectors[m] == w.vectors[m])
  {
    hide ToUpper, Itoa, Atoi;
    Capitals("VEXPIRE");
    IntIsRead(seconds);
  }

  /** A vector stored later without a TTL of its own has the time of the namespace. */
  lemma VExpireIsDefault(n: Numerals, w: World, now: Time, ns: string, seconds: int, args: seq<string>, moment: Time,
                         later: Time)
    requires 0 < seconds <= MAX_INT && ns in w.vectors && moment <= later
    requires ParseVSet(n, args).Some? && ParseVSet(n, args).value.ns == ns && ParseVSet(n, args).value.ttl == 0
    ensures var a := ParseVSet(n, args).value;
      var w' := Do(n, Do(n, w, now, "VEXPIRE", [ns, Itoa(seconds)]), moment, "VSET", args);
      VectorOf(w', later, ns, a.id)
      == if later <= moment + seconds * SECOND then Some(Indexed(a.vector, a.metadata)) else None
  {
    hide ToUpper, Itoa, Atoi, ParseVSet, Insert;
    Capitals("VEXPIRE");
    IntIsRead(seconds);
    VSetIsRead(n, Do(n, w, now, "VEXPIRE", [ns, Itoa(seconds)]), moment, args, Answers, later, ns, "");
  }

  /** VMSET stores for each id its last entry, for the time of the namespace if it has one, even if
      the handler dies in the index afterwards; no other vector changes. */
  lemma VMSetIsRead(n: Numerals, w: World, now: Time, args: seq<string>, fate: Fate, later: Time, ns: string,
                    id: string)
    requires Decode(n, args).Entries? && now <= later
    ensures var batch := BatchOf(Decode(n, args).entries);
      var w', j := Execute(n, w, now, true, Command("VMSET", args), fate).0, LastOf(batch, id, |batch|);
      var default := NamespaceOf(w.vectors, args[0]);
      && VectorOf(w', later, ns, id)
         == (if ns != args[0] || j < 0 then VectorOf(w, later, ns, id)
             else if default.hasDefaultTTL && later > now + default.defaultTTL then None
             else Some(Indexed(batch[j].vector, batch[j].metadata)))
      && w'.kv == w.kv
  {
    hide ToUpper, Decode, InsertAll, PutAll, LastOf;
    Capitals("VMSET");
    DecodedDims(n, args);
    var batch := BatchOf(Decode(n, args).entries);
    BatchIsRead(NamespaceOf(w.vectors, args[0]), now, Atoi(args[1]).value, batch, |batch|, id);
  }

  /** VCOUNT counts the vectors that are there. */
  lemma VCountIsSize(n: Numerals, w: World, now: Time, ns: string)
    ensures Reply(n, w, now, "VCOUNT", [ns])
         == Integer(|set i | i in NamespaceOf(w.vectors, ns).entries && VectorOf(w, now, ns, i).Some?|)
    ensures Do(n, w, now, "VCOUNT", [ns]) == w
  {
    hide ToUpper;
    Capitals("VCOUNT");
    var live := VSnapshot(w.vectors, now, ns);
    assert live.Keys == set i | i in NamespaceOf(w.vectors, ns).entries && VectorOf(w, now, ns, i).Some?;
  }

  /** VGET finds a vector that is there, and changes nothing that can be seen later. */
  lemma VGetTells(n: Numerals, w: World, now: Time, ns: string, id: string, later: Time, ns': string, id': string)
    requires now <= later
    ensures Reply(n, w, now, "VGET", [ns, id]) == if VectorOf(w, now, ns, id).Some? then Data else Nil
    ensures var w' := Do(n, w, now, "VGET", [ns, id]);
      VectorOf(w', later, ns', id') == VectorOf(w, later, ns', id') && w'.kv == w.kv && w'.indexes == w.indexes
  {
    hide ToUpper;
    Capitals("VGET");
  }

  lemma {:induction false} FirstIsWord(args: seq<string>, word: string, i: nat)
    requires i <= |args|
    ensures var k := FirstWord(args, word, i);
      (k < |args| ==> ToUpper(args[k]) == word) && forall j :: i <= j < k ==> ToUpper(args[j]) != word
    decreases |args| - i
  {
    if i < |args| && ToUpper(args[i]) != word {
      FirstIsWord(args, word, i + 1);
    }
  }

  /** Whatever the arguments of VSET: if they are accepted, the declared number of readable floats is
      there, and ends at META, at EX or with the line; the vector has a TTL exactly if EX is there. */
  lemma VSetIsSound(n: Numerals, args: seq<string>)
    requires ParseVSet(n, args).Some?
    ensures |args| >= 4 && Atoi(args[2]).Some?
    ensures var a, dim := ParseVSet(n, args).value, Atoi(args[2]).value;
      && a.ns == args[0] && a.id == args[1] && |a.vector| == dim && 0 < dim <= |args| - 3
      && (forall j :: 0 <= j < dim ==> n.read32(args[3 + j]) == Some(a.vector[j]))
      && (3 + dim < |args| ==> ToUpper(args[3 + dim]) == "META" || ToUpper(args[3 + dim]) == "EX")
      && (forall j :: 3 <= j < 3 + dim ==> ToUpper(args[j]) != "META" && ToUpper(args[j]) != "EX")
      && a.ttl >= 0 && (a.ttl > 0 <==> exists j :: 3 <= j < |args| && ToUpper(args[j]) == "EX")
  {
    hide ToUpper, FirstWord, ReadFloats, MetaArgs, MapOf, Atoi;
    var ex := FirstWord(args, "EX", 3);
    FirstIsWord(args, "META", 3);
    FirstIsWord(args, "EX", 3);
    ReadIsSound(n, args, 3, Atoi(args[2]).value);
    var v := ReadFloats(n, args, 3, Atoi(args[2]).value);
    assert ParseVSet(n, args).value.vector == v;
    forall j | 0 <= j < |v| ensures n.read32(args[3 + j]) == Some(v[j]) {}
    assert ParseVSet(n, args).value.ttl == if ex < |args| then Seconds(args[ex + 1]).value else 0;
    if ex < |args| {
      assert 3 <= ex && ToUpper(args[ex]) == "EX";
    }
  }

  /** VSET is accepted exactly if it declares a positive dimension, as many readable floats end where
      META, EX or the line does, the metadata comes in pairs, and EX has a positive number after it. */
  lemma VSetExactly(n: Numerals, args: seq<string>)
    requires |args| >= 4
    ensures var dim, meta, ex := Atoi(args[2]), FirstWord(args, "META", 3), FirstWord(args, "EX", 3);
      ParseVSet(n, args).Some? <==>
        && dim.Some? && dim.value > 0 && 3 + dim.value == Min(meta, ex)
        && (forall j :: 3 <= j < 3 + dim.value ==> n.read32(args[j]).Some?)
        && (meta < ex ==> (ex - meta - 1) % 2 == 0)
        && (ex < meta < |args| ==> (|args| - meta - 1) % 2 == 0)
        && (ex < |args| ==> ex + 1 < |args| && Atoi(args[ex + 1]).Some? && Atoi(args[ex + 1]).value > 0)
  {
    hide ToUpper, FirstWord, ReadFloats, MapOf, Atoi, MetaArgs, ServerSpec.PairsOf;
    var dim, meta, ex := Atoi(args[2]), FirstWord(args, "META", 3), FirstWord(args, "EX", 3);
    WordsDiffer(args);
    MetaArgsSize(args, meta, ex);
    if dim.Some? && dim.value > 0 && 3 + dim.value == Min(meta, ex) {
      AllAreRead(n, args, 3, dim.value);
    }
  }

  lemma WordsDiffer(args: seq<string>)
    requires |args| >= 3
    ensures FirstWord(args, "META", 3) == FirstWord(args, "EX", 3) ==> FirstWord(args, "EX", 3) == |args|
  {
    hide ToUpper, FirstWord;
    FirstIsWord(args, "META", 3);
    FirstIsWord(args, "EX", 3);
    assert |"META"| != |"EX"|;
  }

  lemma MetaArgsSize(args: seq<string>, meta: nat, ex: nat)
    requires meta <= |args| && ex <= |args|
    ensures |MetaArgs(args, meta, ex)|
         == if meta == |args| then 0 else if meta < ex then ex - meta - 1 else |args| - meta - 1
  {
  }

  function Min(a: int, b: int): int { if a < b then a else b }

  // ---------- indexes ----------

  /** Of the first n pairs from `from` on, the last with this name, in any case; -1 if none has it. */
  function LastNamed(args: seq<string>, from: nat, name: string, n: nat): (k: int)
    requires from + 2 * n <= |args|
    ensures k == -1 || from <= k < from + 2 * n
  {
    if n == 0 then -1
    else if ToUpper(args[from + 2 * (n - 1)]) == name then from + 2 * (n - 1)
    else LastNamed(args, from, name, n - 1)
  }

  /** What the parameters ask for under a name: the last value given, or else the default. */
  function Asked(args: seq<string>, from: nat, name: string, default: int): int
    requires from <= |args|
  {
    var k := LastNamed(args, from, name, (|args| - from) / 2);
    if k < 0 then default else match Atoi(args[k + 1]) case Some(value) => value case None => 0
  }

  lemma {:induction false} LastOrFirst(args: seq<string>, from: nat, name: string, n: nat)
    requires from + 2 * n <= |args| && n >= 1
    ensures var k := LastNamed(args, from + 2, name, n - 1);
      LastNamed(args, from, name, n) == if k >= 0 then k else if ToUpper(args[from]) == name then from else -1
  {
    hide ToUpper;
    if n > 1 {
      LastOrFirst(args, from, name, n - 1);
    }
  }

  predicate GoodPair(args: seq<string>, k: nat)
    requires k + 1 < |args|
  {
    && ToUpper(args[k]) in ["M", "EF_CONSTRUCTION", "EF_SEARCH"]
    && Atoi(args[k + 1]).Some? && Atoi(args[k + 1]).value > 0
  }

  ghost predicate GoodPairs(args: seq<string>, from: nat) {
    && from <= |args| && (|args| - from) % 2 == 0
    && forall k: nat :: from <= k < |args| - 1 && (k - from) % 2 == 0 ==> GoodPair(args, k)
  }

  lemma AskedNext(args: seq<string>, from: nat, name: string, default: int)
    requires from + 2 <= |args|
    ensures Asked(args, from, name, default)
         == Asked(args, from + 2, name,
                  if ToUpper(args[from]) != name then default
                  else match Atoi(args[from + 1]) case Some(value) => value case None => 0)
  {
    hide ToUpper, Atoi;
    LastOrFirst(args, from, name, (|args| - from) / 2);
  }

  /** The parameters are accepted exactly if they come in pairs of a known name and a positive
      number, and then each is the last one given under its name, or its default. */
  lemma {:induction false} ParamsAreLast(args: seq<string>, from: nat, p: Params)
    requires from <= |args|
    ensures CreateParams(args, from, p).Some? <==> GoodPairs(args, from)
    ensures CreateParams(args, from, p).Some? ==>
      CreateParams(args, from, p).value
      == Params(Asked(args, from, "M", p.m), Asked(args, from, "EF_CONSTRUCTION", p.efConstruction),
                Asked(args, from, "EF_SEARCH", p.efSearch))
    decreases |args| - from
  {
    hide Asked, Atoi, ToUpper;
    if from == |args| {
      AskedNothing(args, "M", p.m);
      AskedNothing(args, "EF_CONSTRUCTION", p.efConstruction);
      AskedNothing(args, "EF_SEARCH", p.efSearch);
    } else if from + 1 < |args| {
      FirstPair(args, from);
      AskedNext(args, from, "M", p.m);
      AskedNext(args, from, "EF_CONSTRUCTION", p.efConstruction);
      AskedNext(args, from, "EF_SEARCH", p.efSearch);
      if GoodPair(args, from) {
        ParamsAreLast(args, from + 2, SetParam(p, ToUpper(args[from]), Atoi(args[from + 1]).value).value);
      }
    }
  }

  lemma AskedNothing(args: seq<string>, name: string, default: int)
    ensures Asked(args, |args|, name, default) == default
  {
  }

  lemma FirstPair(args: seq<string>, from: nat)
    requires from + 1 < |args|
    ensures GoodPairs(args, from) <==> GoodPair(args, from) && GoodPairs(args, from + 2)
  {
    hide GoodPair;
    if GoodPairs(args, from) {
      forall k: nat | from + 2 <= k < |args| - 1 && (k - (from + 2)) % 2 == 0 ensures GoodPair(args, k) {
        assert (k - from) % 2 == 0;
      }
    }
    if GoodPair(args, from) && GoodPairs(args, from + 2) {
      forall k: nat | from <= k < |args| - 1 && (k - from) % 2 == 0 ensures GoodPair(args, k) {
        assert k != from ==> (k - (from + 2)) % 2 == 0;
      }
    }
  }

  /** VINDEX CREATE: an index of those parameters, holding the vectors of the namespace that are
      there.  A namespace that has an index keeps it. */
  lemma CreateIsRead(n: Numerals, w: World, now: Time, args: seq<string>, ns: string, id: string)
    requires |args| >= 2 && ToUpper(args[0]) == "CREATE"
    ensures var w', r := Do(n, w, now, "VINDEX", args), Reply(n, w, now, "VINDEX", args);
      if !GoodPairs(args, 2) || args[1] in w.indexes then r == Error && w' == w
      else
        && r == Okay && w'.kv == w.kv && w'.vectors == w.vectors && w'.indexes.Keys == w.indexes.Keys + {args[1]}
        && Held(w'.indexes, ns, id) == (if ns == args[1] then VectorOf(w, now, ns, id) else Held(w.indexes, ns, id))
        && var i := w'.indexes[args[1]];
           && i.m == Asked(args, 2, "M", 16) && i.efConstruction == Asked(args, 2, "EF_CONSTRUCTION", 200)
           && i.ef == Asked(args, 2, "EF_SEARCH", 100)
  {
    hide ToUpper, CreateParams, GoodPairs, Asked;
    Capitals("VINDEX");
    ParamsAreLast(args, 2, Params(16, 200, 100));
  }

  /** VINDEX SET_EF changes the search depth of one index. */
  lemma SetEfIsRead(n: Numerals, w: World, now: Time, ns: string, ef: int, ns': string)
    requires 0 < ef <= MAX_INT
    ensures var args := ["SET_EF", ns, Itoa(ef)];
      var w' := Do(n, w, now, "VINDEX", args);
      && Reply(n, w, now, "VINDEX", args) == (if ns in w.indexes then Okay else Error)
      && w'.kv == w.kv && w'.vectors == w.vectors && w'.indexes.Keys == w.indexes.Keys
      && (ns' in w.indexes ==>
            w'.indexes[ns'] == if ns' == ns then w.indexes[ns'].(ef := ef) else w.indexes[ns'])
  {
    hide ToUpper, Itoa, Atoi;
    Capitals("VINDEX");
    var set_ef := "SET_EF";
    assert ToUpper(set_ef) == set_ef by { Uppers(set_ef); }
    IntIsRead(ef);
  }

  lemma Uppers(s: string)
    requires forall i :: 0 <= i < |s| ==> Upper(s[i]) == s[i]
    ensures ToUpper(s) == s
  {
  }

  /** VINDEX DROP takes one index away and leaves its namespace. */
  lemma IndexDropIsRead(n: Numerals, w: World, now: Time, ns: string, ns': string)
    ensures var w' := Do(n, w, now, "VINDEX", ["DROP", ns]);
      && Reply(n, w, now, "VINDEX", ["DROP", ns]) == (if ns in w.indexes then Okay else Error)
      && w'.kv == w.kv && w'.vectors == w.vectors && w'.indexes.Keys == w.indexes.Keys - {ns}
      && (ns' in w'.indexes ==> w'.indexes[ns'] == w.indexes[ns'])
  {
    hide ToUpper;
    Capitals("VINDEX");
    Capitals("DROP");
  }

  // ---------- what is refused ----------

  /** A client that has not been let in can do nothing but ask to be: no change, no log line. */
  lemma NotAllowed(n: Numerals, w: World, now: Time, cmd: Command, fate: Fate)
    requires ToUpper(cmd.name) != "AUTH"
    ensures Execute(n, w, now, false, cmd, fate) == (w, Error) && Logged(n, w, now, false, cmd, fate) == []
  {
  }

  const COMMANDS := ["SET", "GET", "DEL", "EXPIRE", "TTL", "VSET", "VGET", "VDEL", "VCOUNT", "VSIMILARITY", "VINDEX",
    "VMSET", "VEXPIRE", "VNS", "PING", "INFO", "AUTH"]

  /** The fewest and the most arguments a command takes; -1 for any number. */
  function Takes(name: string): (int, int) {
    if name == "SET" then (2, -1)
    else if name == "DEL" || name == "VNS" then (1, -1)
    else if name == "GET" || name == "TTL" || name == "VCOUNT" then (1, 1)
    else if name == "EXPIRE" || name == "VGET" || name == "VDEL" || name == "VEXPIRE" then (2, 2)
    else if name == "VINDEX" then (2, -1)
    else if name == "VSET" || name == "VMSET" then (4, -1)
    else if name == "VSIMILARITY" then (5, -1)
    else (0, -1)
  }

  /** An unknown command, or one with too few or too many arguments, is an error. */
  lemma WrongNumberIsError(n: Numerals, w: World, now: Time, allowed: bool, cmd: Command, fate: Fate)
    requires var name := ToUpper(cmd.name);
      name !in COMMANDS || |cmd.args| < Takes(name).0 || (Takes(name).1 >= 0 && |cmd.args| > Takes(name).1)
    ensures Execute(n, w, now, allowed, cmd, fate) == (w, Error)
  {
    hide ToUpper, FirstWord, ReadFloats, Atoi;
  }

  /** The subcommands of VINDEX and VNS, in any case, and no others. */
  lemma SubcommandsAreChecked(n: Numerals, w: World, now: Time, args: seq<string>, fate: Fate)
    requires args != []
    ensures var sub := ToUpper(args[0]);
      && (sub !in ["CREATE", "DROP", "INFO", "SET_EF"] ==>
            Execute(n, w, now, true, Command("VINDEX", args), fate) == (w, Error))
      && (sub in ["DROP", "INFO", "SET_EF"] && (|args| < 2 || args[1] !in w.indexes) ==>
            Execute(n, w, now, true, Command("VINDEX", args), fate) == (w, Error))
      && (sub == "INFO" && |args| >= 2 && args[1] in w.indexes ==>
            Do(n, w, now, "VINDEX", args) == w && Reply(n, w, now, "VINDEX", args) == Data)
      && (sub !in ["DROP", "LIST"] || (sub == "DROP" && |args| != 2) ==>
            Execute(n, w, now, true, Command("VNS", args), fate) == (w, Error))
      && (sub == "LIST" ==> Do(n, w, now, "VNS", args) == w && Reply(n, w, now, "VNS", args) == Data)
  {
    hide ToUpper, CreateParams, Atoi;
    Capitals("VINDEX");
    Capitals("VNS");
  }

  /** A time that is no positive number is an error wherever one is asked for. */
  lemma BadTimeIsError(n: Numerals, w: World, now: Time, key: string, value: string, time: string, fate: Fate)
    requires Atoi(time).None? || Atoi(time).value <= 0
    ensures forall cmd :: cmd in [Command("EXPIRE", [key, time]), Command("VEXPIRE", [key, time]),
                                  Command("SET", [key, value, "EX", time])] ==>
      Execute(n, w, now, true, cmd, fate) == (w, Error)
  {
    hide ToUpper, Atoi;
    Capitals("EXPIRE");
    Capitals("VEXPIRE");
    Capitals("SET");
    Capitals("EX");
  }

  /** A key that is not there, or no longer, is nil and has no time left. */
  lemma AbsentIsNil(n: Numerals, w: World, now: Time, key: string)
    requires key !in w.kv || w.kv[key].Expired(now)
    ensures Reply(n, w, now, "GET", [key]) == Nil && Reply(n, w, now, "TTL", [key]) == Integer(-2)
  {
    hide ToUpper;
    Capitals("GET");
    Capitals("TTL");
  }

  /** VSIMILARITY with a query of the declared number of readable floats is answered exactly if it asks
      for at least one and at most a thousand. */
  lemma SimilarityIsBounded(n: Numerals, w: World, now: Time, ns: string, floats: seq<string>, k: int)
    requires 0 < |floats| <= MAX_INT && -MAX_INT - 1 <= k <= MAX_INT
    requires forall i :: 0 <= i < |floats| ==> n.read32(floats[i]).Some? && ToUpper(floats[i]) != "TOP"
    ensures var args := [ns, Itoa(|floats|)] + floats + ["TOP", Itoa(k)];
      && Do(n, w, now, "VSIMILARITY", args) == w
      && Reply(n, w, now, "VSIMILARITY", args) == if 1 <= k <= 1000 then Data else Error
  {
    hide ToUpper, Itoa, Atoi, ReadFloats, FirstWord;
    Capitals("VSIMILARITY");
    Capitals("TOP");
    var args := [ns, Itoa(|floats|)] + floats + ["TOP", Itoa(k)];
    IntIsRead(|floats|);
    IntIsRead(k);
    assert forall j :: 2 <= j < 2 + |floats| ==> args[j] == floats[j - 2];
    Vset.FirstWordIs(args, "TOP", 2, 2 + |floats|);
    AllAreRead(n, args, 2, |floats|);
  }

  lemma {:induction false} AllAreRead(n: Numerals, args: seq<string>, pos: nat, dim: nat)
    requires pos + dim <= |args|
    ensures |ReadFloats(n, args, pos, dim)| == dim <==> forall j :: pos <= j < pos + dim ==> n.read32(args[j]).Some?
  {
    if dim > 0 {
      AllAreRead(n, args, pos, dim - 1);
    }
  }

  /** A command that is not logged changes nothing that can be seen, at any later time, whatever its
      arguments, its fate and the TTLs around. */
  lemma UnloggedIsUnseen(n: Numerals, w: World, now: Time, allowed: bool, cmd: Command, fate: Fate, later: Time,
                         key: string, ns: string, id: string)
    requires !IsMutative(cmd.name) && ToUpper(cmd.name) == cmd.name && now <= later
    ensures var w' := Execute(n, w, now, allowed, cmd, fate).0;
      && Reply(n, w', later, "GET", [key]) == Reply(n, w, later, "GET", [key])
      && Reply(n, w', later, "TTL", [key]) == Reply(n, w, later, "TTL", [key])
      && VectorOf(w', later, ns, id) == VectorOf(w, later, ns, id)
      && w'.indexes == w.indexes
  {
    var w' := Execute(n, w, now, allowed, cmd, fate).0;
    UnloggedReads(n, w, now, allowed, cmd, fate);
    hide ToUpper, Execute, IsMutative;
    SameReplies(n, w, w', later, key);
  }

  /** At most one key and one vector that have expired are gone. */
  ghost predicate Expires(w: World, now: Time, w': World) {
    && (w'.kv == w.kv || exists k :: k in w.kv && w.kv[k].Expired(now) && w'.kv == w.kv - {k})
    && (w'.vectors == w.vectors
        || exists m, i :: m in w.vectors && i in w.vectors[m].entries && w.vectors[m].entries[i].Expired(now)
             && w'.vectors == w.vectors[m := w.vectors[m].(entries := w.vectors[m].entries - {i})])
    && w'.indexes == w.indexes
  }

  lemma GetsExpire(w: World, now: Time, args: seq<string>)
    ensures Expires(w, now, HandleGet(w, now, args).0) && Expires(w, now, HandleVGet(w, now, args).0)
  {
  }

  lemma UnloggedReads(n: Numerals, w: World, now: Time, allowed: bool, cmd: Command, fate: Fate)
    requires !IsMutative(cmd.name) && ToUpper(cmd.name) == cmd.name
    ensures Expires(w, now, Execute(n, w, now, allowed, cmd, fate).0)
  {
    assert Expires(w, now, w);
    hide ToUpper, AsksTop, HandleGet, HandleVGet, HandleSet, HandleDel, HandleExpire, HandleVSet, HandleVDel,
      HandleVIndex, HandleVMSet, HandleVExpire, HandleVNS, Expires;
    GetsExpire(w, now, cmd.args);
    forall k | 0 <= k < |MUTATIVE| ensures MUTATIVE[k] != cmd.name {
      assert MUTATIVE[k] in MUTATIVE;
    }
    assert MUTATIVE[0] == "SET" && MUTATIVE[1] == "DEL" && MUTATIVE[2] == "EXPIRE" && MUTATIVE[3] == "VSET";
    assert MUTATIVE[4] == "VDEL" && MUTATIVE[5] == "VINDEX" && MUTATIVE[6] == "VMSET" && MUTATIVE[7] == "VEXPIRE";
    assert MUTATIVE[8] == "VNS";
  }

  lemma SameReplies(n: Numerals, w: World, w': World, later: Time, key: string)
    requires w'.kv == w.kv || exists k :: k in w.kv && w.kv[k].Expired(later) && w'.kv == w.kv - {k}
    ensures Reply(n, w', later, "GET", [key]) == Reply(n, w, later, "GET", [key])
    ensures Reply(n, w', later, "TTL", [key]) == Reply(n, w, later, "TTL", [key])
  {
    hide ToUpper;
    Capitals("GET");
    Capitals("TTL");
  }
}
