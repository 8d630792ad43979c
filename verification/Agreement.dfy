/** When the indexes agree with the store: what is live in an indexed namespace is in the index
    with the same vector, and without TTLs the two hold the same keys.  Exactly a handler that
    dies on the way from one to the other can part them. */
module Agreement {
  import opened Text
  import opened Decimal
  import opened CommandText
  import opened Vmset
  import opened StoreSpec
  import opened ServerSpec

  /** What the store shows under a key at a time. */
  function Shown(v: Vectors, now: Time, ns: string, id: string): Option<Indexed> {
    if ns in v && id in v[ns].entries && !v[ns].entries[id].Expired(now)
    then Some(Indexed(v[ns].entries[id].vector, v[ns].entries[id].metadata)) else None
  }

  function Held(indexes: map<string, IndexState>, ns: string, id: string): Option<Indexed> {
    if ns in indexes && id in indexes[ns].entries then Some(indexes[ns].entries[id]) else None
  }

  ghost predicate NoTtl(v: Vectors) {
    forall ns {:trigger v[ns]} :: ns in v ==>
      && !v[ns].hasDefaultTTL
      && forall id :: id in v[ns].entries ==> !v[ns].entries[id].hasTTL && v[ns].entries[id].expiresAt == 0
  }

  /** Every unexpired vector of an indexed namespace is in the index, unchanged; if exact, the
      index holds nothing else. */
  ghost predicate Agrees(v: Vectors, indexes: map<string, IndexState>, now: Time, exact: bool) {
    && (exact ==> NoTtl(v))
    && forall ns, id {:trigger Shown(v, now, ns, id)} ::
         ns in indexes && (exact || Shown(v, now, ns, id).Some?) ==> Held(indexes, ns, id) == Shown(v, now, ns, id)
  }

  lemma AgreesLater(v: Vectors, indexes: map<string, IndexState>, now: Time, later: Time, exact: bool)
    requires Agrees(v, indexes, now, exact) && now <= later
    ensures Agrees(v, indexes, later, exact)
  {
    forall ns, id | ns in indexes && (exact || Shown(v, later, ns, id).Some?)
      ensures Held(indexes, ns, id) == Shown(v, later, ns, id)
    {
      assert Shown(v, now, ns, id) == Shown(v, later, ns, id);
    }
  }

  /** Nothing else changes where the index already agrees. */
  lemma ChangeAgrees(v: Vectors, indexes: map<string, IndexState>, v': Vectors, indexes': map<string, IndexState>,
                     now: Time, exact: bool)
    requires Agrees(v, indexes, now, exact) && (exact ==> NoTtl(v'))
    requires forall ns, id {:trigger Shown(v', now, ns, id)} :: ns in indexes' ==>
      || Held(indexes', ns, id) == Shown(v', now, ns, id)
      || (&& ns in indexes
          && Shown(v, now, ns, id) == Shown(v', now, ns, id) && Held(indexes', ns, id) == Held(indexes, ns, id))
    ensures Agrees(v', indexes', now, exact)
  {
    forall ns, id | ns in indexes' && (exact || Shown(v', now, ns, id).Some?)
      ensures Held(indexes', ns, id) == Shown(v', now, ns, id)
    {
      assert Held(indexes', ns, id) == Shown(v', now, ns, id) || Shown(v, now, ns, id) == Shown(v', now, ns, id);
    }
  }

  lemma PutAgrees(v: Vectors, indexes: map<string, IndexState>, now: Time, ns: string, id: string, vector: seq<real>,
                  metadata: Metadata, ttl: Time, exact: bool)
    requires Agrees(v, indexes, now, exact) && (exact ==> ttl == 0)
    ensures Agrees(v[ns := Put(NamespaceOf(v, ns), now, id, vector, metadata, ttl)],
                   Insert(indexes, ns, id, vector, metadata), now, exact)
  {
    var v' := v[ns := Put(NamespaceOf(v, ns), now, id, vector, metadata, ttl)];
    var indexes' := Insert(indexes, ns, id, vector, metadata);
    forall m, k | m in indexes' && (exact || Shown(v', now, m, k).Some?)
      ensures Held(indexes', m, k) == Shown(v', now, m, k)
    {
      if m != ns || k != id {
        assert Shown(v, now, m, k) == Shown(v', now, m, k);
      }
    }
  }

  lemma {:induction false} BatchAgrees(v: Vectors, indexes: map<string, IndexState>, now: Time, ns: string, dim: int,
                                       batch: seq<BatchEntry>, k: nat, exact: bool)
    requires Agrees(v, indexes, now, exact) && k <= |batch| && forall i :: 0 <= i < k ==> |batch[i].vector| == dim
    ensures var r := PutAll(NamespaceOf(v, ns), now, dim, batch, k);
      r.1 == k && Agrees(v[ns := r.0], InsertAll(indexes, ns, batch, k), now, exact)
  {
    hide Agrees, Put, Insert;
    if k == 0 {
      TouchAgrees(v, indexes, now, ns, exact);
    } else {
      BatchAgrees(v, indexes, now, ns, dim, batch, k - 1, exact);
      var n := PutAll(NamespaceOf(v, ns), now, dim, batch, k - 1).0;
      var e := batch[k - 1];
      PutAgrees(v[ns := n], InsertAll(indexes, ns, batch, k - 1), now, ns, e.id, e.vector, e.metadata, 0, exact);
      var put := Put(n, now, e.id, e.vector, e.metadata, 0);
      assert v[ns := n][ns := put] == v[ns := put];
    }
  }

  lemma TouchAgrees(v: Vectors, indexes: map<string, IndexState>, now: Time, ns: string, exact: bool)
    requires Agrees(v, indexes, now, exact)
    ensures Agrees(v[ns := NamespaceOf(v, ns)], indexes, now, exact)
  {
    var v' := v[ns := NamespaceOf(v, ns)];
    forall m, k ensures Shown(v', now, m, k) == Shown(v, now, m, k) {}
    ChangeAgrees(v, indexes, v', indexes, now, exact);
  }

  /** No default TTL is in the past: VEXPIRE takes positive ones only. */
  ghost predicate DefaultsAhead(v: Vectors) {
    forall ns :: ns in v && v[ns].hasDefaultTTL ==> v[ns].defaultTTL >= 0
  }

  /** A vector stored but not inserted: the index agrees exactly if it holds the same already. */
  lemma PutAgreesExactly(v: Vectors, indexes: map<string, IndexState>, now: Time, ns: string, id: string,
                         vector: seq<real>, metadata: Metadata, ttl: Time, exact: bool)
    requires Agrees(v, indexes, now, exact) && DefaultsAhead(v) && ns in indexes && ttl >= 0 && (exact ==> ttl == 0)
    ensures Agrees(v[ns := Put(NamespaceOf(v, ns), now, id, vector, metadata, ttl)], indexes, now, exact)
       <==> Held(indexes, ns, id) == Some(Indexed(vector, metadata))
  {
    var v' := v[ns := Put(NamespaceOf(v, ns), now, id, vector, metadata, ttl)];
    assert Shown(v', now, ns, id) == Some(Indexed(vector, metadata));
    if Held(indexes, ns, id) == Some(Indexed(vector, metadata)) {
      forall m, k | m in indexes && (exact || Shown(v', now, m, k).Some?)
        ensures Held(indexes, m, k) == Shown(v', now, m, k)
      {
        if m != ns || k != id {
          assert Shown(v, now, m, k) == Shown(v', now, m, k);
        }
      }
    }
  }

  /** The last of the first k batch entries with this id, or -1. */
  function LastOf(batch: seq<BatchEntry>, id: string, k: nat): (j: int)
    requires k <= |batch|
    ensures -1 <= j < k && (j >= 0 ==> batch[j].id == id) && forall i :: j < i < k ==> batch[i].id != id
  {
    if k == 0 then -1 else if batch[k - 1].id == id then k - 1 else LastOf(batch, id, k - 1)
  }

  /** A batch stores for each id its last entry, and leaves the other ids alone. */
  lemma {:induction false} BatchIsRead(s: Namespace, now: Time, dim: int, batch: seq<BatchEntry>, k: nat, id: string)
    requires k <= |batch| && forall i :: 0 <= i < k ==> |batch[i].vector| == dim
    ensures var r, j := PutAll(s, now, dim, batch, k), LastOf(batch, id, k);
      && r.1 == k && r.0.hasDefaultTTL == s.hasDefaultTTL && r.0.defaultTTL == s.defaultTTL
      && (j >= 0 ==> id in r.0.entries && r.0.entries[id] == NewEntry(s, now, batch[j].vector, batch[j].metadata, 0))
      && (j < 0 ==> (id in r.0.entries <==> id in s.entries) && (id in s.entries ==> r.0.entries[id] == s.entries[id]))
  {
    if k > 0 {
      BatchIsRead(s, now, dim, batch, k - 1, id);
    }
  }

  /** What the first k insertions of a batch leave in the indexes. */
  lemma {:induction false} HeldAfter(indexes: map<string, IndexState>, ns: string, batch: seq<BatchEntry>, k: nat,
                                     m: string, id: string)
    requires k <= |batch| && ns in indexes
    ensures var i, j := InsertAll(indexes, ns, batch, k), LastOf(batch, id, k);
      && i.Keys == indexes.Keys
      && Held(i, m, id)
         == if m == ns && j >= 0 then Some(Indexed(batch[j].vector, batch[j].metadata)) else Held(indexes, m, id)
  {
    if k > 0 {
      HeldAfter(indexes, ns, batch, k - 1, m, id);
      assert Insert(InsertAll(indexes, ns, batch, k - 1), ns, batch[k - 1].id, batch[k - 1].vector,
                    batch[k - 1].metadata).Keys == indexes.Keys;
    }
  }

  /** What the batch stores last under an id, from its k-th entry on, is in the index. */
  ghost predicate Covers(indexes: map<string, IndexState>, ns: string, batch: seq<BatchEntry>, k: nat) {
    forall i :: k <= i < |batch| && LastOf(batch, batch[i].id, |batch|) == i ==>
      Held(indexes, ns, batch[i].id) == Some(Indexed(batch[i].vector, batch[i].metadata))
  }

  lemma BatchIsShown(v: Vectors, now: Time, ns: string, dim: int, batch: seq<BatchEntry>, i: nat)
    requires i < |batch| && LastOf(batch, batch[i].id, |batch|) == i && DefaultsAhead(v)
    requires forall k :: 0 <= k < |batch| ==> |batch[k].vector| == dim
    ensures Shown(v[ns := PutAll(NamespaceOf(v, ns), now, dim, batch, |batch|).0], now, ns, batch[i].id)
         == Some(Indexed(batch[i].vector, batch[i].metadata))
  {
    hide PutAll, LastOf;
    BatchIsRead(NamespaceOf(v, ns), now, dim, batch, |batch|, batch[i].id);
  }

  /** A batch stored whole, of which k entries were inserted. */
  lemma BatchAgreesExactly(v: Vectors, indexes: map<string, IndexState>, now: Time, ns: string, dim: int,
                           batch: seq<BatchEntry>, k: nat, exact: bool)
    requires Agrees(v, indexes, now, exact) && DefaultsAhead(v) && ns in indexes && k <= |batch|
    requires forall i :: 0 <= i < |batch| ==> |batch[i].vector| == dim
    ensures var v' := v[ns := PutAll(NamespaceOf(v, ns), now, dim, batch, |batch|).0];
      var part := InsertAll(indexes, ns, batch, k);
      Agrees(v', part, now, exact) <==> Covers(part, ns, batch, k)
  {
    hide PutAll, InsertAll, NamespaceOf, Shown, Held, DefaultsAhead, LastOf;
    var v' := v[ns := PutAll(NamespaceOf(v, ns), now, dim, batch, |batch|).0];
    var part, full := InsertAll(indexes, ns, batch, k), InsertAll(indexes, ns, batch, |batch|);
    BatchAgrees(v, indexes, now, ns, dim, batch, |batch|, exact);
    if Agrees(v', part, now, exact) {
      HeldAfter(indexes, ns, batch, k, ns, "");
      forall i | k <= i < |batch| && LastOf(batch, batch[i].id, |batch|) == i
        ensures Held(part, ns, batch[i].id) == Some(Indexed(batch[i].vector, batch[i].metadata))
      {
        BatchIsShown(v, now, ns, dim, batch, i);
      }
    }
    if Covers(part, ns, batch, k) {
      forall m, id | m in part && (exact || Shown(v', now, m, id).Some?)
        ensures Held(part, m, id) == Shown(v', now, m, id)
      {
        HeldAfter(indexes, ns, batch, k, m, id);
        HeldAfter(indexes, ns, batch, |batch|, m, id);
        LastOfPart(batch, id, k);
      }
    }
  }

  lemma LastOfPart(batch: seq<BatchEntry>, id: string, k: nat)
    requires k <= |batch|
    ensures var j := LastOf(batch, id, |batch|);
      if j < k then LastOf(batch, id, k) == j else batch[j].id == id
  {
  }

  lemma DelAgrees(v: Vectors, indexes: map<string, IndexState>, now: Time, ns: string, id: string, exact: bool)
    requires Agrees(v, indexes, now, exact)
    ensures Agrees(VDel(v, ns, id).0, Remove(indexes, ns, id), now, exact)
  {
    ChangeAgrees(v, indexes, VDel(v, ns, id).0, Remove(indexes, ns, id), now, exact);
  }

  /** A vector taken from the store but left in the index. */
  lemma DelAgreesExactly(v: Vectors, indexes: map<string, IndexState>, now: Time, ns: string, id: string, exact: bool)
    requires Agrees(v, indexes, now, exact)
    ensures Agrees(VDel(v, ns, id).0, indexes, now, exact) <==> (exact ==> Held(indexes, ns, id) == None)
  {
    var v' := VDel(v, ns, id).0;
    assert Shown(v', now, ns, id) == None;
    forall m, k | m != ns || k != id ensures Shown(v', now, m, k) == Shown(v, now, m, k) {}
    if exact ==> Held(indexes, ns, id) == None {
      forall m, k | m in indexes && (exact || Shown(v', now, m, k).Some?)
        ensures Held(indexes, m, k) == Shown(v', now, m, k)
      {
        assert m != ns || k != id ==> Shown(v', now, m, k) == Shown(v, now, m, k);
      }
    }
  }

  lemma GetAgrees(v: Vectors, indexes: map<string, IndexState>, now: Time, ns: string, id: string, exact: bool)
    requires Agrees(v, indexes, now, exact)
    ensures Agrees(VGet(v, now, ns, id).0, indexes, now, exact)
  {
    ChangeAgrees(v, indexes, VGet(v, now, ns, id).0, indexes, now, exact);
  }

  lemma DropAgrees(v: Vectors, indexes: map<string, IndexState>, now: Time, ns: string, exact: bool)
    requires Agrees(v, indexes, now, exact)
    ensures Agrees(v - {ns}, indexes - {ns}, now, exact) && Agrees(v, indexes - {ns}, now, exact)
  {
    ChangeAgrees(v, indexes, v - {ns}, indexes - {ns}, now, exact);
    ChangeAgrees(v, indexes, v, indexes - {ns}, now, exact);
  }

  lemma SweptShows(v: Vectors, now: Time, ns: string, id: string)
    ensures Shown(SweptVectors(v, now), now, ns, id) == Shown(v, now, ns, id)
  {
    if Shown(v, now, ns, id).Some? {
      assert id in Live(v[ns].entries, now);
    }
  }

  lemma SweepAgrees(v: Vectors, indexes: map<string, IndexState>, now: Time, exact: bool)
    requires Agrees(v, indexes, now, exact)
    ensures Agrees(SweptVectors(v, now), indexes, now, exact)
  {
    var v' := SweptVectors(v, now);
    forall ns, id ensures Shown(v', now, ns, id) == Shown(v, now, ns, id) {
      SweptShows(v, now, ns, id);
    }
    ChangeAgrees(v, indexes, v', indexes, now, exact);
  }

  /** VEXPIRE changes when a vector expires, never the vector. */
  lemma ExpireAgrees(v: Vectors, indexes: map<string, IndexState>, now: Time, ns: string, ttl: Time)
    requires Agrees(v, indexes, now, false) && ttl > 0
    ensures Agrees(VExpire(v, now, ns, ttl).0, indexes, now, false)
  {
    var v' := VExpire(v, now, ns, ttl).0;
    forall m, k ensures Shown(v, now, m, k) == Shown(v', now, m, k) {}
    ChangeAgrees(v, indexes, v', indexes, now, false);
  }

  /** A new index agrees exactly if the bulk load left nothing live out. */
  lemma CreateAgreesExactly(v: Vectors, indexes: map<string, IndexState>, now: Time, ns: string, idx: IndexState,
                            fate: Fate, exact: bool)
    requires Agrees(v, indexes, now, exact) && idx.entries == LoadedBy(fate, Loaded(v, now, ns))
    ensures Agrees(v, indexes[ns := idx], now, exact) <==> (fate.Dies? ==> fate.left !! VSnapshot(v, now, ns).Keys)
  {
    var indexes' := indexes[ns := idx];
    var left := if fate.Dies? then fate.left else {};
    forall k ensures Held(indexes', ns, k) == if k in left then None else Shown(v, now, ns, k) {
      assert k in VSnapshot(v, now, ns) <==> Shown(v, now, ns, k).Some?;
    }
    if left !! VSnapshot(v, now, ns).Keys {
      forall k ensures Held(indexes', ns, k) == Shown(v, now, ns, k) {
        assert k in left ==> k !in VSnapshot(v, now, ns);
      }
      ChangeAgrees(v, indexes, v, indexes', now, exact);
    } else {
      var k :| k in left && k in VSnapshot(v, now, ns);
      assert Shown(v, now, ns, k).Some?;
    }
  }

  lemma EfAgrees(v: Vectors, indexes: map<string, IndexState>, now: Time, ns: string, ef: int, exact: bool)
    requires Agrees(v, indexes, now, exact) && ns in indexes
    ensures Agrees(v, indexes[ns := indexes[ns].(ef := ef)], now, exact)
  {
    ChangeAgrees(v, indexes, v, indexes[ns := indexes[ns].(ef := ef)], now, exact);
  }

  lemma {:induction false} VectorsHaveDim(n: Numerals, args: seq<string>, dim: nat, count: nat, i: nat,
                                          entries: seq<Entry>)
    requires i <= |args| && forall k :: 0 <= k < |entries| ==> |entries[k].vector| == dim
    ensures var r := ReadAll(n, args, dim, count, i, entries);
      r.Entries? ==> forall k :: 0 <= k < |r.entries| ==> |r.entries[k].vector| == dim
    decreases |args| - i
  {
    hide ReadMeta, ReadFloats;
    if |entries| < count && i < |args| {
      var r := ReadEntry(n, args, dim, |entries| + 1 < count, i);
      if r.Got? {
        VectorsHaveDim(n, args, dim, count, r.next, entries + [r.entry]);
      }
    }
  }

  /** Whether what a handler that died left out of the index was there already: nothing in the
      command's part of the index can tell that it died.  It can be checked before the command. */
  ghost predicate Caught(n: Numerals, w: World, now: Time, cmd: Command, fate: Fate, exact: bool) {
    var name, args := ToUpper(cmd.name), cmd.args;
    if name == "VSET" then VSetCaught(n, w, args, fate)
    else if name == "VMSET" then VMSetCaught(n, w, args, fate)
    else if name == "VINDEX" then VIndexCaught(w, now, args, fate)
    else if name == "VDEL" then
      |args| == 2 && exact && Reached(fate, 1) == 0 ==> Held(w.indexes, args[0], args[1]) == None
    else true
  }

  ghost predicate VSetCaught(n: Numerals, w: World, args: seq<string>, fate: Fate) {
    var a := ParseVSet(n, args);
    a.Some? && a.value.ns in w.indexes && Reached(fate, 1) == 0 ==>
      Held(w.indexes, a.value.ns, a.value.id) == Some(Indexed(a.value.vector, a.value.metadata))
  }

  ghost predicate VMSetCaught(n: Numerals, w: World, args: seq<string>, fate: Fate) {
    var r := Decode(n, args);
    r.Entries? && args[0] in w.indexes ==>
      var batch := BatchOf(r.entries);
      var k := Reached(fate, |batch|);
      Covers(InsertAll(w.indexes, args[0], batch, k), args[0], batch, k)
  }

  ghost predicate VIndexCaught(w: World, now: Time, args: seq<string>, fate: Fate) {
    && |args| >= 2 && ToUpper(args[0]) == "CREATE" && args[1] !in w.indexes && fate.Dies?
    && CreateParams(args, 2, Params(16, 200, 100)).Some?
    ==> fate.left !! VSnapshot(w.vectors, now, args[1]).Keys
  }

  lemma {:induction false} DecodedDims(n: Numerals, args: seq<string>)
    requires Decode(n, args).Entries?
    ensures |args| >= 4 && Atoi(args[1]).Some?
    ensures forall i :: 0 <= i < |Decode(n, args).entries| ==>
      |BatchOf(Decode(n, args).entries)[i].vector| == Atoi(args[1]).value
  {
    hide ReadAll;
    VectorsHaveDim(n, args, Atoi(args[1]).value, Atoi(args[2]).value, 3, []);
    var entries := Decode(n, args).entries;
    forall i | 0 <= i < |entries| ensures |BatchOf(entries)[i].vector| == Atoi(args[1]).value {
      assert BatchOf(entries)[i].vector == entries[i].vector;
    }
  }

  /** VMSET: the store never refuses what the parser accepts. */
  lemma VMSetAgrees(n: Numerals, w: World, now: Time, args: seq<string>, fate: Fate, exact: bool)
    requires Agrees(w.vectors, w.indexes, now, exact) && DefaultsAhead(w.vectors)
    ensures var w' := HandleVMSet(n, w, now, args, fate).0;
      Agrees(w'.vectors, w'.indexes, now, exact) <==> VMSetCaught(n, w, args, fate)
  {
    hide Agrees, Decode, PutAll, InsertAll, NamespaceOf, Covers, Reached, DefaultsAhead;
    var r := Decode(n, args);
    if r.Entries? {
      DecodedDims(n, args);
      var dim, batch := Atoi(args[1]).value, BatchOf(r.entries);
      var k := Reached(fate, |batch|);
      BatchAgrees(w.vectors, w.indexes, now, args[0], dim, batch, |batch|, exact);
      if args[0] in w.indexes {
        BatchAgreesExactly(w.vectors, w.indexes, now, args[0], dim, batch, k, exact);
      } else {
        InsertAllOutside(w.indexes, args[0], batch, k);
        InsertAllOutside(w.indexes, args[0], batch, |batch|);
      }
    }
  }

  lemma {:induction false} InsertAllOutside(indexes: map<string, IndexState>, ns: string, batch: seq<BatchEntry>,
                                            k: nat)
    requires k <= |batch| && ns !in indexes
    ensures InsertAll(indexes, ns, batch, k) == indexes
  {
    if k > 0 {
      InsertAllOutside(indexes, ns, batch, k - 1);
    }
  }

  lemma VIndexAgrees(w: World, now: Time, args: seq<string>, fate: Fate, exact: bool)
    requires Agrees(w.vectors, w.indexes, now, exact)
    ensures var w' := HandleVIndex(w, now, args, fate).0;
      Agrees(w'.vectors, w'.indexes, now, exact) <==> VIndexCaught(w, now, args, fate)
  {
    hide Agrees, Loaded, LoadedBy, CreateParams, VSnapshot, Reached;
    if |args| >= 2 {
      var ns := args[1];
      DropAgrees(w.vectors, w.indexes, now, ns, exact);
      if ToUpper(args[0]) == "CREATE" {
        var p := CreateParams(args, 2, Params(16, 200, 100));
        if p.Some? && ns !in w.indexes {
          var idx := IndexState(p.value.m, p.value.efConstruction, p.value.efSearch,
                                LoadedBy(fate, Loaded(w.vectors, now, ns)));
          CreateAgreesExactly(w.vectors, w.indexes, now, ns, idx, fate, exact);
        }
      } else if ToUpper(args[0]) == "SET_EF" && ns in w.indexes && |args| == 3 && Atoi(args[2]).Some? {
        EfAgrees(w.vectors, w.indexes, now, ns, Atoi(args[2]).value, exact);
      }
    }
  }

  lemma VSetAgrees(n: Numerals, w: World, now: Time, args: seq<string>, fate: Fate, exact: bool)
    requires Agrees(w.vectors, w.indexes, now, exact) && DefaultsAhead(w.vectors) && (exact ==> NoEx(args))
    ensures var w' := HandleVSet(n, w, now, args, fate).0;
      Agrees(w'.vectors, w'.indexes, now, exact) <==> VSetCaught(n, w, args, fate)
  {
    hide Agrees, Put, Insert, ReadFloats, MapOf, DefaultsAhead;
    var p := ParseVSet(n, args);
    if p.Some? {
      TtlIsNotNegative(n, args);
      var a := p.value;
      PutAgrees(w.vectors, w.indexes, now, a.ns, a.id, a.vector, a.metadata, a.ttl, exact);
      if a.ns in w.indexes {
        PutAgreesExactly(w.vectors, w.indexes, now, a.ns, a.id, a.vector, a.metadata, a.ttl, exact);
      } else {
        assert Insert(w.indexes, a.ns, a.id, a.vector, a.metadata) == w.indexes by {
          InsertOutside(w.indexes, a.ns, a.id, a.vector, a.metadata);
        }
      }
    }
  }

  lemma InsertOutside(indexes: map<string, IndexState>, ns: string, id: string, vector: seq<real>, metadata: Metadata)
    requires ns !in indexes
    ensures Insert(indexes, ns, id, vector, metadata) == indexes
  {
  }

  lemma TtlIsNotNegative(n: Numerals, args: seq<string>)
    requires ParseVSet(n, args).Some?
    ensures ParseVSet(n, args).value.ttl >= 0
  {
    hide ReadFloats, MapOf, PairsOf, Atoi, FirstWord;
  }

  /** No EX in a VSET. */
  predicate NoEx(args: seq<string>) {
    |args| >= 3 ==> FirstWord(args, "EX", 3) == |args|
  }

  /** A command that gives nothing a TTL. */
  predicate TtlFree(cmd: Command) {
    var name := ToUpper(cmd.name);
    && name != "EXPIRE" && name != "VEXPIRE"
    && (name == "SET" ==> !WantsTTL(cmd.args))
    && (name == "VSET" ==> NoEx(cmd.args))
  }

  lemma SecondsArePositive(arg: string)
    ensures Seconds(arg).Some? ==> Seconds(arg).value > 0
  {
  }

  predicate TouchesVectors(name: string) {
    name in ["VSET", "VGET", "VDEL", "VINDEX", "VMSET", "VEXPIRE", "VNS"]
  }

  lemma OthersLeaveVectors(n: Numerals, w: World, now: Time, allowed: bool, cmd: Command, fate: Fate)
    requires !allowed || !TouchesVectors(ToUpper(cmd.name))
    ensures var w' := Execute(n, w, now, allowed, cmd, fate).0; w'.vectors == w.vectors && w'.indexes == w.indexes
  {
    hide HandleVSet, HandleVGet, HandleVDel, HandleVIndex, HandleVMSet, HandleVExpire, HandleVNS, ToUpper, Get, Del,
      Expire, Ttl, AsksTop, Seconds, WantsTTL;
  }

  /** A command keeps the agreement exactly if it is caught: if its handler comes back, or if what
      a dying one has left out of the index was there already. */
  lemma ExecuteAgreesExactly(n: Numerals, w: World, now: Time, allowed: bool, cmd: Command, fate: Fate, exact: bool)
    requires Agrees(w.vectors, w.indexes, now, exact) && DefaultsAhead(w.vectors) && (exact ==> TtlFree(cmd))
    ensures var w' := Execute(n, w, now, allowed, cmd, fate).0;
      Agrees(w'.vectors, w'.indexes, now, exact) <==> (allowed ==> Caught(n, w, now, cmd, fate, exact))
  {
    hide Agrees, HandleSet, HandleGet, HandleDel, HandleExpire, HandleTTL, HandleVCount, HandleVSimilarity,
      HandleVSet, HandleVMSet, HandleVIndex, VDel, VGet, VExpire, Remove, Seconds, ToUpper, NoEx, WantsTTL,
      DefaultsAhead, VSetCaught, VMSetCaught, VIndexCaught, Held, Shown;
    var name, args, v, i := ToUpper(cmd.name), cmd.args, w.vectors, w.indexes;
    if !allowed || !TouchesVectors(name) {
      OthersLeaveVectors(n, w, now, allowed, cmd, fate);
    } else if name == "VSET" {
      VSetAgrees(n, w, now, args, fate, exact);
    } else if name == "VMSET" {
      VMSetAgrees(n, w, now, args, fate, exact);
    } else if name == "VINDEX" {
      VIndexAgrees(w, now, args, fate, exact);
    } else if |args| == 2 {
      DelAgrees(v, i, now, args[0], args[1], exact);
      DelAgreesExactly(v, i, now, args[0], args[1], exact);
      GetAgrees(v, i, now, args[0], args[1], exact);
      DropAgrees(v, i, now, args[1], exact);
      SecondsArePositive(args[1]);
      if !exact && Seconds(args[1]).Some? {
        ExpireAgrees(v, i, now, args[0], Seconds(args[1]).value);
      }
    }
  }

  /** A handler that answers has left nothing out. */
  lemma AnswerIsCaught(n: Numerals, w: World, now: Time, cmd: Command, fate: Fate, exact: bool)
    requires !Execute(n, w, now, true, cmd, fate).1.Silence?
    ensures Caught(n, w, now, cmd, fate, exact)
  {
    hide ParseVSet, Decode, VDel, VGet, VExpire, Remove, Get, Del, Expire, Ttl, AsksTop, Seconds, ToUpper, WantsTTL,
      Insert, InsertAll, Put, PutAll, CreateParams, Loaded, LoadedBy, NamespaceOf, HandleVIndex, HandleVMSet;
    if ToUpper(cmd.name) == "VMSET" {
      VMSetAnswerIsCaught(n, w, now, cmd.args, fate);
    } else if ToUpper(cmd.name) == "VINDEX" {
      VIndexAnswerIsCaught(w, now, cmd.args, fate);
    }
  }

  lemma VMSetAnswerIsCaught(n: Numerals, w: World, now: Time, args: seq<string>, fate: Fate)
    requires !HandleVMSet(n, w, now, args, fate).1.Silence?
    ensures VMSetCaught(n, w, args, fate)
  {
    hide Decode, PutAll, InsertAll, NamespaceOf;
    var r := Decode(n, args);
    if r.Entries? {
      DecodedDims(n, args);
      AllPut(NamespaceOf(w.vectors, args[0]), now, Atoi(args[1]).value, BatchOf(r.entries), |r.entries|);
    }
  }

  lemma VIndexAnswerIsCaught(w: World, now: Time, args: seq<string>, fate: Fate)
    requires !HandleVIndex(w, now, args, fate).1.Silence?
    ensures VIndexCaught(w, now, args, fate)
  {
    hide CreateParams, VSnapshot, LoadedBy, ToUpper;
    if |args| >= 2 && VSnapshot(w.vectors, now, args[1]) != map[] {
      var id :| id in VSnapshot(w.vectors, now, args[1]);
      assert id in Loaded(w.vectors, now, args[1]);
    }
  }

  lemma {:induction false} AllPut(s: Namespace, now: Time, dim: int, batch: seq<BatchEntry>, k: nat)
    requires k <= |batch| && forall i :: 0 <= i < |batch| ==> |batch[i].vector| == dim
    ensures PutAll(s, now, dim, batch, k).1 == k
  {
    if k > 0 {
      AllPut(s, now, dim, batch, k - 1);
    }
  }

  lemma ExecuteKeepsDefaults(n: Numerals, w: World, now: Time, allowed: bool, cmd: Command, fate: Fate)
    requires DefaultsAhead(w.vectors)
    ensures DefaultsAhead(Execute(n, w, now, allowed, cmd, fate).0.vectors)
  {
    hide HandleSet, HandleGet, HandleDel, HandleExpire, HandleTTL, HandleVCount, HandleVSimilarity, HandleVSet,
      HandleVMSet, HandleVIndex, HandleVExpire, Remove, Live, ToUpper;
    var name, args := ToUpper(cmd.name), cmd.args;
    if !allowed || !TouchesVectors(name) {
      OthersLeaveVectors(n, w, now, allowed, cmd, fate);
    } else if name == "VMSET" {
      VMSetKeepsDefaults(n, w, now, args, fate);
    } else if name == "VSET" {
      VSetKeepsDefaults(n, w, now, args, fate);
    } else if name == "VEXPIRE" {
      VExpireKeepsDefaults(w, now, args);
    } else if name == "VINDEX" {
      VIndexKeepsVectors(w, now, args, fate);
    }
  }

  lemma VSetKeepsDefaults(n: Numerals, w: World, now: Time, args: seq<string>, fate: Fate)
    requires DefaultsAhead(w.vectors)
    ensures DefaultsAhead(HandleVSet(n, w, now, args, fate).0.vectors)
  {
    hide ParseVSet, NewEntry;
  }

  lemma VExpireKeepsDefaults(w: World, now: Time, args: seq<string>)
    requires DefaultsAhead(w.vectors)
    ensures DefaultsAhead(HandleVExpire(w, now, args).0.vectors)
  {
    if |args| == 2 {
      SecondsArePositive(args[1]);
    }
  }

  lemma VMSetKeepsDefaults(n: Numerals, w: World, now: Time, args: seq<string>, fate: Fate)
    requires DefaultsAhead(w.vectors)
    ensures DefaultsAhead(HandleVMSet(n, w, now, args, fate).0.vectors)
  {
    hide Decode, PutAll, InsertAll;
    if Decode(n, args).Entries? {
      DecodedDims(n, args);
      var batch := BatchOf(Decode(n, args).entries);
      BatchIsRead(NamespaceOf(w.vectors, args[0]), now, Atoi(args[1]).value, batch, |batch|, "");
    }
  }

  lemma VIndexKeepsVectors(w: World, now: Time, args: seq<string>, fate: Fate)
    ensures HandleVIndex(w, now, args, fate).0.vectors == w.vectors
  {
    hide CreateParams, Loaded, ToUpper;
  }

  // ---------- runs ----------

  datatype Event = Tick(now: Time) | Request(now: Time, allowed: bool, cmd: Command, fate: Fate)

  function Next(n: Numerals, w: World, e: Event): World {
    match e
    case Tick(now) => Swept(w, now)
    case Request(now, allowed, cmd, fate) => Execute(n, w, now, allowed, cmd, fate).0
  }

  function After(n: Numerals, events: seq<Event>): World {
    if events == [] then EMPTY_WORLD else Next(n, After(n, events[..|events| - 1]), events[|events| - 1])
  }

  ghost predicate Timely(events: seq<Event>) {
    forall i, j :: 0 <= i <= j < |events| ==> events[i].now <= events[j].now
  }

  ghost predicate TtlFreeRun(events: seq<Event>) {
    forall i :: 0 <= i < |events| && events[i].Request? ==> TtlFree(events[i].cmd)
  }

  function Clock(events: seq<Event>): Time {
    if events == [] then 0 else events[|events| - 1].now
  }

  /** The indexes agree with the store after every event. */
  ghost predicate AgreesThroughout(n: Numerals, events: seq<Event>, exact: bool) {
    && Agrees(After(n, events).vectors, After(n, events).indexes, Clock(events), exact)
    && (events != [] ==> AgreesThroughout(n, events[..|events| - 1], exact))
  }

  /** Every command of the run is caught when it comes. */
  ghost predicate CaughtThroughout(n: Numerals, events: seq<Event>, exact: bool) {
    events != [] ==>
      var front, e := events[..|events| - 1], events[|events| - 1];
      && CaughtThroughout(n, front, exact)
      && (e.Request? && e.allowed ==> Caught(n, After(n, front), e.now, e.cmd, e.fate, exact))
  }

  /** No handler of the run dies. */
  ghost predicate Answered(n: Numerals, events: seq<Event>) {
    events != [] ==>
      var front, e := events[..|events| - 1], events[|events| - 1];
      && Answered(n, front)
      && (e.Request? ==> !Execute(n, After(n, front), e.now, e.allowed, e.cmd, e.fate).1.Silence?)
  }

  lemma Front(events: seq<Event>)
    requires Timely(events) && events != []
    ensures var front := events[..|events| - 1]; Timely(front) && (front != [] ==> Clock(front) <= Clock(events))
    ensures TtlFreeRun(events) ==> TtlFreeRun(events[..|events| - 1])
  {
    var front := events[..|events| - 1];
    assert forall i :: 0 <= i < |front| ==> front[i] == events[i];
  }

  lemma {:induction false} RunsKeepDefaults(n: Numerals, events: seq<Event>)
    ensures DefaultsAhead(After(n, events).vectors)
  {
    hide Execute;
    if events != [] {
      var front, last := events[..|events| - 1], events[|events| - 1];
      RunsKeepDefaults(n, front);
      if last.Request? {
        ExecuteKeepsDefaults(n, After(n, front), last.now, last.allowed, last.cmd, last.fate);
      }
    }
  }

  lemma EmptyAgrees(now: Time, exact: bool)
    ensures Agrees(EMPTY_WORLD.vectors, EMPTY_WORLD.indexes, now, exact)
  {
  }

  lemma StillAgrees(n: Numerals, events: seq<Event>, now: Time, exact: bool)
    requires Agrees(After(n, events).vectors, After(n, events).indexes, Clock(events), exact)
    requires events != [] ==> Clock(events) <= now
    ensures Agrees(After(n, events).vectors, After(n, events).indexes, now, exact)
  {
    if events == [] {
      EmptyAgrees(now, exact);
    } else {
      AgreesLater(After(n, events).vectors, After(n, events).indexes, Clock(events), now, exact);
    }
  }

  /** In a run from an empty server, commands and sweeps in any order, on a clock that does not go
      back, store and indexes agree after every event exactly if every command is caught. */
  lemma {:induction false} RunsAgreeExactlyIf(n: Numerals, events: seq<Event>, exact: bool)
    requires Timely(events) && (exact ==> TtlFreeRun(events))
    ensures AgreesThroughout(n, events, exact) <==> CaughtThroughout(n, events, exact)
  {
    hide Agrees, Execute, SweptVectors, TtlFree, Caught, DefaultsAhead, Timely;
    if events == [] {
      EmptyAgrees(0, exact);
    } else {
      var front, last := events[..|events| - 1], events[|events| - 1];
      Front(events);
      RunsAgreeExactlyIf(n, front, exact);
      if AgreesThroughout(n, front, exact) {
        var w := After(n, front);
        StillAgrees(n, front, last.now, exact);
        RunsKeepDefaults(n, front);
        match last {
          case Tick(t) => SweepAgrees(w.vectors, w.indexes, t, exact);
          case Request(t, allowed, cmd, fate) => ExecuteAgreesExactly(n, w, t, allowed, cmd, fate, exact);
        }
      }
    }
  }

  lemma {:induction false} AnsweredIsCaught(n: Numerals, events: seq<Event>, exact: bool)
    requires Answered(n, events)
    ensures CaughtThroughout(n, events, exact)
  {
    hide Execute, Caught;
    if events != [] {
      var front, e := events[..|events| - 1], events[|events| - 1];
      AnsweredIsCaught(n, front, exact);
      if e.Request? && e.allowed {
        AnswerIsCaught(n, After(n, front), e.now, e.cmd, e.fate, exact);
      }
    }
  }

  lemma RunsKeepAgreement(n: Numerals, events: seq<Event>, now: Time, exact: bool)
    requires Timely(events) && Answered(n, events) && (exact ==> TtlFreeRun(events))
    requires events != [] ==> Clock(events) <= now
    ensures Agrees(After(n, events).vectors, After(n, events).indexes, now, exact)
  {
    AnsweredIsCaught(n, events, exact);
    RunsAgreeExactlyIf(n, events, exact);
    StillAgrees(n, events, now, exact);
  }

  /** As long as no handler has died, every unexpired vector of an indexed namespace is in its
      index, unchanged. */
  lemma RunsAgree(n: Numerals, events: seq<Event>, now: Time, ns: string, id: string)
    requires Timely(events) && Answered(n, events) && (events != [] ==> Clock(events) <= now)
    ensures var w := After(n, events);
      ns in w.indexes && Shown(w.vectors, now, ns, id).Some? ==>
        Held(w.indexes, ns, id) == Shown(w.vectors, now, ns, id)
  {
    RunsKeepAgreement(n, events, now, false);
  }

  /** Without TTLs an indexed namespace and its index then hold the same keys and vectors. */
  lemma RunsAgreeExactly(n: Numerals, events: seq<Event>, ns: string)
    requires Timely(events) && Answered(n, events) && TtlFreeRun(events) && ns in After(n, events).indexes
    ensures var w := After(n, events);
      && w.indexes[ns].entries.Keys == NamespaceOf(w.vectors, ns).entries.Keys
      && forall id :: id in w.indexes[ns].entries ==>
           var e := NamespaceOf(w.vectors, ns).entries[id]; w.indexes[ns].entries[id] == Indexed(e.vector, e.metadata)
  {
    var now, w := Clock(events), After(n, events);
    RunsKeepAgreement(n, events, now, true);
    forall id ensures id in w.indexes[ns].entries <==> id in NamespaceOf(w.vectors, ns).entries {
      assert Held(w.indexes, ns, id) == Shown(w.vectors, now, ns, id);
    }
    forall id | id in w.indexes[ns].entries
      ensures var e := NamespaceOf(w.vectors, ns).entries[id];
        w.indexes[ns].entries[id] == Indexed(e.vector, e.metadata)
    {
      assert Held(w.indexes, ns, id) == Shown(w.vectors, now, ns, id);
    }
  }
}
