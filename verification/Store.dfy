/** The store as an object whose maps the operations update in place, store.go and vector.go.
    One operation runs at a time and reads the clock once. */
module Stores {
  import opened Text
  import opened StoreSpec
  import Spec = StoreSpec

  /** The pairs of one namespace. */
  function Rows(ns: string, ids: set<string>): set<(string, string)> {
    set id | id in ids :: (ns, id)
  }

  lemma {:induction false} PairsSize(ns: string, ids: set<string>)
    ensures |Rows(ns, ids)| == |ids|
  {
    if ids != {} {
      var id :| id in ids;
      PairsSize(ns, ids - {id});
      assert Rows(ns, ids) == Rows(ns, ids - {id}) + {(ns, id)};
    }
  }

  function LiveAmong(kv: Keys, now: Time, seen: set<string>): set<string>
    requires seen <= kv.Keys
  {
    set k | k in seen && !kv[k].Expired(now)
  }

  lemma OneMoreKey(kv: Keys, now: Time, seen: set<string>, k: string)
    requires seen <= kv.Keys && k in kv && k !in seen
    ensures |LiveAmong(kv, now, seen + {k})| == |LiveAmong(kv, now, seen)| + if kv[k].Expired(now) then 0 else 1
  {
    assert LiveAmong(kv, now, seen + {k})
        == if kv[k].Expired(now) then LiveAmong(kv, now, seen) else LiveAmong(kv, now, seen) + {k};
  }

  /** The pairs outside the namespaces still pending. */
  function Settled(pairs: set<(string, string)>, pending: set<string>): set<(string, string)> {
    set p | p in pairs && p.0 !in pending
  }

  lemma OneMoreNamespace(pairs: set<(string, string)>, pending: set<string>, ns: string, ids: set<string>)
    requires ns in pending && forall id :: (ns, id) in pairs <==> id in ids
    ensures |Settled(pairs, pending - {ns})| == |Settled(pairs, pending)| + |ids|
  {
    PairsSize(ns, ids);
    assert Settled(pairs, pending - {ns}) == Settled(pairs, pending) + Rows(ns, ids);
    assert Settled(pairs, pending) !! Rows(ns, ids);
  }

  class Store {
    var kv: Keys
    var vectors: Vectors

    constructor ()
      ensures kv == map[] && vectors == map[]
    {
      kv, vectors := map[], map[];
    }

    method Set(key: string, value: string)
      modifies this`kv
      ensures kv == old(kv)[key := Plain(value)]
    {
      kv := kv[key := KvEntry(value, false, 0)];
    }

    method SetWithTTL(now: Time, key: string, value: string, ttl: Time)
      modifies this`kv
      ensures kv == old(kv)[key := KvEntry(value, true, now + ttl)]
    {
      kv := kv[key := KvEntry(value, true, now + ttl)];
    }

    method Get(now: Time, key: string) returns (value: Option<string>)
      modifies this`kv
      ensures (kv, value) == Spec.Get(old(kv), now, key)
      ensures var live := LiveKeys(old(kv), now); value == if key in live then Some(live[key].value) else None
      ensures LiveKeys(kv, now) == LiveKeys(old(kv), now) && kv - {key} == old(kv) - {key}
      ensures key in kv <==> key in LiveKeys(old(kv), now)
    {
      if key !in kv {
        return None;
      }
      if kv[key].Expired(now) {
        kv := kv - {key};
        return None;
      }
      return Some(kv[key].value);
    }

    method Del(keys: seq<string>) returns (count: nat)
      modifies this`kv
      ensures (kv, count) == Spec.Del(old(kv), keys)
    {
      count := 0;
      for i := 0 to |keys|
        invariant (kv, count) == Spec.Del(old(kv), keys[..i])
      {
        assert keys[..i + 1][..i] == keys[..i];
        if keys[i] in kv {
          kv := kv - {keys[i]};
          count := count + 1;
        }
      }
      assert keys[..|keys|] == keys;
    }

    method Expire(now: Time, key: string, ttl: Time) returns (ok: bool)
      modifies this`kv
      ensures (kv, ok) == Spec.Expire(old(kv), now, key, ttl)
      ensures ok <==> key in LiveKeys(old(kv), now)
      ensures kv == if ok then old(kv)[key := KvEntry(old(kv)[key].value, true, now + ttl)] else old(kv)
      ensures ok && ttl >= SECOND ==> Ttl(kv, now, key) == ttl / SECOND
    {
      if key !in kv || kv[key].Expired(now) {
        return false;
      }
      kv := kv[key := KvEntry(kv[key].value, true, now + ttl)];
      return true;
    }

    method KVCount(now: Time) returns (count: nat)
      ensures count == |LiveKeys(kv, now)|
    {
      count := 0;
      var pending := kv.Keys;
      ghost var seen: set<string> := {};
      while pending != {}
        invariant pending + seen == kv.Keys && pending !! seen
        invariant count == |LiveAmong(kv, now, seen)|
        decreases |pending|
      {
        var k :| k in pending;
        OneMoreKey(kv, now, seen, k);
        if !kv[k].Expired(now) {
          count := count + 1;
        }
        pending, seen := pending - {k}, seen + {k};
      }
      assert LiveKeys(kv, now).Keys == LiveAmong(kv, now, seen);
    }

    method VSetWithTTL(now: Time, ns: string, id: string, dim: int, vector: seq<real>, metadata: Metadata, ttl: Time)
      returns (ok: bool)
      modifies this`vectors
      ensures (vectors, ok) == Spec.VSet(old(vectors), now, ns, id, dim, vector, metadata, ttl)
    {
      if |vector| != dim {
        return false;
      }
      var n := NamespaceOf(vectors, ns);
      var entry := VecEntry(vector, metadata, false, 0);
      if ttl > 0 {
        entry := entry.(hasTTL := true, expiresAt := now + ttl);
      } else if ttl == 0 && n.hasDefaultTTL {
        entry := entry.(hasTTL := true, expiresAt := now + n.defaultTTL);
      }
      vectors := vectors[ns := n.(entries := n.entries[id := entry])];
      return true;
    }

    method VMSet(now: Time, ns: string, dim: int, batch: seq<BatchEntry>) returns (count: nat, ok: bool)
      modifies this`vectors
      ensures (vectors, count) == Spec.VMSet(old(vectors), now, ns, dim, batch)
      ensures ok <==> count == |batch|
    {
      var n := NamespaceOf(vectors, ns);
      ghost var start := n;
      count := 0;
      while count < |batch|
        invariant count <= |batch| && (n, count) == PutAll(start, now, dim, batch, count)
        invariant vectors == old(vectors)
      {
        var e := batch[count];
        if |e.vector| != dim {
          StopsEarly(start, now, dim, batch, count, |batch|);
          vectors := vectors[ns := n];
          return count, false;
        }
        var entry := VecEntry(e.vector, e.metadata, false, 0);
        if n.hasDefaultTTL {
          entry := entry.(hasTTL := true, expiresAt := now + n.defaultTTL);
        }
        n := n.(entries := n.entries[e.id := entry]);
        count := count + 1;
      }
      vectors := vectors[ns := n];
      ok := true;
    }

    method VGet(now: Time, ns: string, id: string) returns (entry: Option<VecEntry>)
      modifies this`vectors
      ensures (vectors, entry) == Spec.VGet(old(vectors), now, ns, id)
      ensures var live := Spec.VSnapshot(old(vectors), now, ns); entry == if id in live then Some(live[id]) else None
      ensures forall m :: Spec.VSnapshot(vectors, now, m) == Spec.VSnapshot(old(vectors), now, m)
      ensures vectors.Keys == old(vectors).Keys && vectors - {ns} == old(vectors) - {ns}
      ensures id in NamespaceOf(vectors, ns).entries <==> id in Spec.VSnapshot(old(vectors), now, ns)
    {
      VGetHides(vectors, now, ns, id);
      if ns !in vectors || id !in vectors[ns].entries {
        return None;
      }
      if vectors[ns].entries[id].Expired(now) {
        vectors := vectors[ns := vectors[ns].(entries := vectors[ns].entries - {id})];
        return None;
      }
      return Some(vectors[ns].entries[id]);
    }

    method VDel(ns: string, id: string) returns (ok: bool)
      modifies this`vectors
      ensures (vectors, ok) == Spec.VDel(old(vectors), ns, id)
      ensures ok <==> id in NamespaceOf(old(vectors), ns).entries
      ensures vectors.Keys == old(vectors).Keys && vectors - {ns} == old(vectors) - {ns}
      ensures NamespaceOf(vectors, ns) == NamespaceOf(old(vectors), ns).(entries := NamespaceOf(vectors, ns).entries)
      ensures NamespaceOf(vectors, ns).entries == NamespaceOf(old(vectors), ns).entries - {id}
    {
      if ns !in vectors || id !in vectors[ns].entries {
        return false;
      }
      vectors := vectors[ns := vectors[ns].(entries := vectors[ns].entries - {id})];
      return true;
    }

    method VSnapshot(now: Time, ns: string) returns (live: map<string, VecEntry>)
      ensures live == Spec.VSnapshot(vectors, now, ns)
    {
      live := map[];
      if ns in vectors {
        var entries := vectors[ns].entries;
        var pending := entries.Keys;
        while pending != {}
          invariant pending <= entries.Keys
          invariant live == map id | id in entries && id !in pending && !entries[id].Expired(now) :: entries[id]
          decreases |pending|
        {
          var id :| id in pending;
          if !entries[id].Expired(now) {
            live := live[id := entries[id]];
          }
          pending := pending - {id};
        }
      }
    }

    method VCount(now: Time, ns: string) returns (count: nat)
      ensures count == |Spec.VSnapshot(vectors, now, ns)|
    {
      var live := VSnapshot(now, ns);
      count := |live|;
    }

    method TotalVectors(now: Time) returns (total: nat)
      ensures total == |LivePairs(vectors, now)|
    {
      total := 0;
      var pending := vectors.Keys;
      ghost var pairs := LivePairs(vectors, now);
      while pending != {}
        invariant pending <= vectors.Keys && total == |Settled(pairs, pending)|
        decreases |pending|
      {
        var ns :| ns in pending;
        var count := VCount(now, ns);
        OneMoreNamespace(pairs, pending, ns, Live(vectors[ns].entries, now).Keys);
        total := total + count;
        pending := pending - {ns};
      }
      assert Settled(pairs, pending) == pairs;
    }

    method VExpireNamespace(now: Time, ns: string, ttl: Time) returns (ok: bool)
      modifies this`vectors
      ensures (vectors, ok) == Spec.VExpire(old(vectors), now, ns, ttl)
      ensures ok <==> ns in old(vectors)
      ensures ok ==> vectors.Keys == old(vectors).Keys && vectors - {ns} == old(vectors) - {ns}
      ensures ok ==> vectors[ns].hasDefaultTTL && vectors[ns].defaultTTL == ttl
      ensures ok ==> vectors[ns].entries.Keys == old(vectors)[ns].entries.Keys
      ensures ok ==> forall id :: id in vectors[ns].entries ==>
        var before := old(vectors)[ns].entries[id];
        vectors[ns].entries[id] == if before.hasTTL then before else before.(hasTTL := true, expiresAt := now + ttl)
    {
      if ns !in vectors {
        return false;
      }
      var entries := vectors[ns].entries;
      var pending := entries.Keys;
      while pending != {}
        invariant pending <= entries.Keys == vectors[ns].entries.Keys && vectors == old(vectors)
        invariant entries == map id | id in vectors[ns].entries ::
          if id in pending || vectors[ns].entries[id].hasTTL then vectors[ns].entries[id]
          else VecEntry(vectors[ns].entries[id].vector, vectors[ns].entries[id].metadata, true, now + ttl)
        decreases |pending|
      {
        var id :| id in pending;
        if !entries[id].hasTTL {
          entries := entries[id := VecEntry(entries[id].vector, entries[id].metadata, true, now + ttl)];
        }
        pending := pending - {id};
      }
      ghost var goal := Spec.VExpire(old(vectors), now, ns, ttl).0[ns].entries;
      assert entries == goal;
      vectors := vectors[ns := Namespace(entries, true, ttl)];
      return true;
    }

    method VNSDrop(ns: string) returns (ok: bool)
      modifies this`vectors
      ensures (vectors, ok) == Spec.VNSDrop(old(vectors), ns)
    {
      if ns !in vectors {
        assert vectors - {ns} == vectors;
        return false;
      }
      vectors := vectors - {ns};
      return true;
    }

    /** Removes all expired keys, all expired vectors, and the namespaces left without any. */
    method SweepExpired(now: Time) returns (count: nat)
      modifies this
      ensures kv == LiveKeys(old(kv), now) && vectors == SweptVectors(old(vectors), now)
      ensures count == |GoneKeys(old(kv), now)| + |GonePairs(old(vectors), now)|
    {
      count := 0;
      var pending := kv.Keys;
      ghost var gone: set<string> := {};
      while pending != {}
        invariant pending <= kv.Keys && vectors == old(vectors)
        invariant kv == map k | k in old(kv) && (k in pending || !old(kv)[k].Expired(now)) :: old(kv)[k]
        invariant gone == (set k | k in old(kv) && k !in pending && old(kv)[k].Expired(now)) && count == |gone|
        decreases |pending|
      {
        var k :| k in pending;
        if kv[k].Expired(now) {
          kv := kv - {k};
          count := count + 1;
          gone := gone + {k};
        }
        pending := pending - {k};
      }
      assert gone == GoneKeys(old(kv), now);
      var removed := SweepVectors(now);
      count := count + removed;
    }

    method SweepVectors(now: Time) returns (count: nat)
      modifies this`vectors
      ensures vectors == SweptVectors(old(vectors), now) && count == |GonePairs(old(vectors), now)|
    {
      count := 0;
      var before := vectors;
      var pending := before.Keys;
      ghost var gone := GonePairs(before, now);
      assert Settled(gone, pending) == {};
      while pending != {}
        invariant pending <= before.Keys && vectors == PartlySwept(before, now, pending)
        invariant count == |Settled(gone, pending)|
        decreases |pending|
      {
        var ns :| ns in pending;
        var n, removed := SweepNamespace(before[ns], now);
        OneMoreNamespace(gone, pending, ns, Gone(before[ns].entries, now));
        PartlySweptNext(before, now, pending, ns);
        count := count + removed;
        if n.entries == map[] {
          vectors := vectors - {ns};
        } else {
          vectors := vectors[ns := n];
        }
        pending := pending - {ns};
      }
      assert Settled(gone, pending) == gone;
      assert PartlySwept(before, now, {}) == SweptVectors(before, now);
    }
  }

  /** Lazy deletion takes nothing live from any namespace. */
  lemma VGetHides(v: Vectors, now: Time, ns: string, id: string)
    ensures forall m :: VSnapshot(Spec.VGet(v, now, ns, id).0, now, m) == VSnapshot(v, now, m)
  {
    var v' := Spec.VGet(v, now, ns, id).0;
    forall m ensures VSnapshot(v', now, m) == VSnapshot(v, now, m) {
      assert NamespaceOf(v', m).entries == NamespaceOf(v, m).entries
          || NamespaceOf(v', m).entries == NamespaceOf(v, m).entries - {id};
    }
  }

  /** The namespaces not pending have been swept. */
  function PartlySwept(v: Vectors, now: Time, pending: set<string>): Vectors {
    map ns | ns in v && (ns in pending || Live(v[ns].entries, now) != map[]) ::
      if ns in pending then v[ns] else SweptNamespace(v[ns], now)
  }

  lemma PartlySweptNext(v: Vectors, now: Time, pending: set<string>, ns: string)
    requires ns in pending && ns in v
    ensures PartlySwept(v, now, pending - {ns})
         == if Live(v[ns].entries, now) == map[] then PartlySwept(v, now, pending) - {ns}
            else PartlySwept(v, now, pending)[ns := SweptNamespace(v[ns], now)]
  {
  }

  lemma {:induction false} StopsEarly(n: Namespace, now: Time, dim: int, batch: seq<BatchEntry>, k: nat, m: nat)
    requires k < m <= |batch| && PutAll(n, now, dim, batch, k).1 == k && |batch[k].vector| != dim
    ensures PutAll(n, now, dim, batch, m) == PutAll(n, now, dim, batch, k)
    decreases m
  {
    if k < m - 1 {
      StopsEarly(n, now, dim, batch, k, m - 1);
    }
  }

  lemma OneSettled(gone: set<string>, pending: set<string>, id: string)
    requires id in pending
    ensures |gone - (pending - {id})| == |gone - pending| + if id in gone then 1 else 0
  {
    assert gone - (pending - {id}) == if id in gone then (gone - pending) + {id} else gone - pending;
  }

  /** The entries outside `pending` have been swept. */
  function PartlyLive(entries: map<string, VecEntry>, now: Time, pending: set<string>): map<string, VecEntry> {
    map id | id in entries && (id in pending || !entries[id].Expired(now)) :: entries[id]
  }

  lemma PartlyLiveNext(entries: map<string, VecEntry>, now: Time, pending: set<string>, id: string)
    requires id in pending && id in entries
    ensures PartlyLive(entries, now, pending - {id})
         == if entries[id].Expired(now) then PartlyLive(entries, now, pending) - {id}
            else PartlyLive(entries, now, pending)
  {
  }

  lemma PartlyLiveEnds(entries: map<string, VecEntry>, now: Time)
    ensures PartlyLive(entries, now, entries.Keys) == entries && PartlyLive(entries, now, {}) == Live(entries, now)
  {
  }

  method SweepNamespace(n: Namespace, now: Time) returns (r: Namespace, removed: nat)
    ensures r == SweptNamespace(n, now) && removed == |Gone(n.entries, now)|
  {
    hide Live;
    var entries := n.entries;
    var pending := entries.Keys;
    ghost var gone := Gone(n.entries, now);
    assert gone - pending == {};
    PartlyLiveEnds(n.entries, now);
    removed := 0;
    while pending != {}
      invariant pending <= n.entries.Keys && removed == |gone - pending|
      invariant entries == PartlyLive(n.entries, now, pending)
      decreases |pending|
    {
      var id :| id in pending;
      OneSettled(gone, pending, id);
      PartlyLiveNext(n.entries, now, pending, id);
      if n.entries[id].Expired(now) {
        entries := entries - {id};
        removed := removed + 1;
      }
      pending := pending - {id};
    }
    assert gone - pending == gone;
    r := n.(entries := entries);
  }
}
