/** Whether and when the background sweep shows: runs of store operations with sweeps anywhere
    in them answer as the same runs without. */
module Expiry {
  import opened Text
  import opened Sets
  import opened StoreSpec

  datatype State = State(kv: Keys, vectors: Vectors)

  datatype Op =
    | Sweep
    | SetOp(key: string, value: string)
    | SetTTLOp(key: string, value: string, ttl: Time)
    | GetOp(key: string)
    | DelOp(keys: seq<string>)
    | ExpireOp(key: string, ttl: Time)
    | TtlOp(key: string)
    | CountOp
    | VSetOp(ns: string, id: string, dim: int, vector: seq<real>, metadata: Metadata, ttl: Time)
    | VMSetOp(ns: string, dim: int, batch: seq<BatchEntry>)
    | VGetOp(ns: string, id: string)
    | VDelOp(ns: string, id: string)
    | VCountOp(ns: string)
    | VSnapshotOp(ns: string)
    | VExpireOp(ns: string, ttl: Time)
    | VDropOp(ns: string)
    | TotalOp

  datatype Answer =
    | Silent
    | Text(text: Option<string>)
    | Number(n: int)
    | Flag(ok: bool)
    | Entry(entry: Option<VecEntry>)
    | Entries(entries: map<string, VecEntry>)

  datatype Event = Event(now: Time, op: Op)

  function Step(s: State, e: Event): (State, Answer) {
    var now, kv, v := e.now, s.kv, s.vectors;
    match e.op
    case Sweep => (State(LiveKeys(kv, now), SweptVectors(v, now)), Number(|GoneKeys(kv, now)| + |GonePairs(v, now)|))
    case SetOp(key, value) => (State(kv[key := Plain(value)], v), Silent)
    case SetTTLOp(key, value, ttl) => (State(kv[key := KvEntry(value, true, now + ttl)], v), Silent)
    case GetOp(key) => var r := Get(kv, now, key); (State(r.0, v), Text(r.1))
    case DelOp(keys) => var r := Del(kv, keys); (State(r.0, v), Number(r.1))
    case ExpireOp(key, ttl) => var r := Expire(kv, now, key, ttl); (State(r.0, v), Flag(r.1))
    case TtlOp(key) => (s, Number(Ttl(kv, now, key)))
    case CountOp => (s, Number(|LiveKeys(kv, now)|))
    case VSetOp(ns, id, dim, vector, metadata, ttl) =>
      var r := VSet(v, now, ns, id, dim, vector, metadata, ttl); (State(kv, r.0), Flag(r.1))
    case VMSetOp(ns, dim, batch) => var r := VMSet(v, now, ns, dim, batch); (State(kv, r.0), Number(r.1))
    case VGetOp(ns, id) => var r := VGet(v, now, ns, id); (State(kv, r.0), Entry(r.1))
    case VDelOp(ns, id) => var r := VDel(v, ns, id); (State(kv, r.0), Flag(r.1))
    case VCountOp(ns) => (s, Number(|VSnapshot(v, now, ns)|))
    case VSnapshotOp(ns) => (s, Entries(VSnapshot(v, now, ns)))
    case VExpireOp(ns, ttl) => var r := VExpire(v, now, ns, ttl); (State(kv, r.0), Flag(r.1))
    case VDropOp(ns) => var r := VNSDrop(v, ns); (State(kv, r.0), Flag(r.1))
    case TotalOp => (s, Number(|LivePairs(v, now)|))
  }

  function After(s: State, events: seq<Event>): State {
    if events == [] then s else Step(After(s, events[..|events| - 1]), events[|events| - 1]).0
  }

  /** The answers that do not count expired entries still unswept. */
  predicate AsksKeys(op: Op) {
    op.GetOp? || op.TtlOp? || op.ExpireOp? || op.CountOp?
  }

  predicate AsksVectors(op: Op) {
    op.VSetOp? || op.VMSetOp? || op.VGetOp? || op.VCountOp? || op.VSnapshotOp? || op.TotalOp?
  }

  /** The answers to the operations that `asks` selects. */
  function Answers(s: State, events: seq<Event>, asks: Op -> bool): seq<Answer> {
    if events == [] then [] else
      var front, last := events[..|events| - 1], events[|events| - 1];
      Answers(s, front, asks) + if asks(last.op) then [Step(After(s, front), last).1] else []
  }

  function WithoutSweeps(events: seq<Event>): seq<Event> {
    if events == [] then [] else
      var last := events[|events| - 1];
      WithoutSweeps(events[..|events| - 1]) + if last.op.Sweep? then [] else [last]
  }

  /** The clock never goes back. */
  ghost predicate Timely(events: seq<Event>) {
    forall i, j :: 0 <= i <= j < |events| ==> events[i].now <= events[j].now
  }

  lemma TimelyFront(events: seq<Event>)
    requires Timely(events) && events != []
    ensures var front, last := events[..|events| - 1], events[|events| - 1];
      Timely(front) && (front == [] || front[|front| - 1].now <= last.now)
  {
    var front := events[..|events| - 1];
    assert forall i :: 0 <= i < |front| ==> front[i] == events[i];
  }

  lemma AfterNext(s: State, events: seq<Event>, e: Event)
    ensures After(s, events + [e]) == Step(After(s, events), e).0
  {
    assert (events + [e])[..|events|] == events;
  }

  lemma AnswersNext(s: State, events: seq<Event>, e: Event, asks: Op -> bool)
    ensures Answers(s, events + [e], asks)
         == Answers(s, events, asks) + if asks(e.op) then [Step(After(s, events), e).1] else []
  {
    assert (events + [e])[..|events|] == events;
  }

  // ---------- keys ----------

  /** What a key shows at a time. */
  function KeyView(kv: Keys, now: Time, k: string): Option<KvEntry> {
    if k in kv && !kv[k].Expired(now) then Some(kv[k]) else None
  }

  ghost predicate SameKeys(a: Keys, b: Keys, now: Time) {
    forall k :: KeyView(a, now, k) == KeyView(b, now, k)
  }

  lemma SameKeysLater(a: Keys, b: Keys, now: Time, later: Time)
    requires SameKeys(a, b, now) && now <= later
    ensures SameKeys(a, b, later)
  {
    forall k ensures KeyView(a, later, k) == KeyView(b, later, k) {
      assert KeyView(a, now, k) == KeyView(b, now, k);
    }
  }

  lemma SweptKeyView(kv: Keys, now: Time, k: string)
    ensures KeyView(LiveKeys(kv, now), now, k) == KeyView(kv, now, k)
  {
  }

  lemma SweepIsSame(a: Keys, b: Keys, now: Time)
    requires SameKeys(a, b, now)
    ensures SameKeys(LiveKeys(a, now), b, now) && SameKeys(LiveKeys(a, now), LiveKeys(b, now), now)
  {
    var a', b' := LiveKeys(a, now), LiveKeys(b, now);
    forall k ensures KeyView(a', now, k) == KeyView(b, now, k) {
      SweptKeyView(a, now, k);
    }
    forall k ensures KeyView(a', now, k) == KeyView(b', now, k) {
      SweptKeyView(a, now, k);
      SweptKeyView(b, now, k);
    }
  }

  lemma PutIsSame(a: Keys, b: Keys, now: Time, key: string, e: KvEntry)
    requires SameKeys(a, b, now)
    ensures SameKeys(a[key := e], b[key := e], now)
  {
    var a', b' := a[key := e], b[key := e];
    forall k ensures KeyView(a', now, k) == KeyView(b', now, k) {
      assert KeyView(a, now, k) == KeyView(b, now, k);
    }
  }

  lemma RemoveIsSame(a: Keys, b: Keys, now: Time, keys: set<string>)
    requires SameKeys(a, b, now)
    ensures SameKeys(a - keys, b - keys, now)
  {
    forall k ensures KeyView(a - keys, now, k) == KeyView(b - keys, now, k) {
      assert KeyView(a, now, k) == KeyView(b, now, k);
    }
  }

  lemma GetIsSame(a: Keys, b: Keys, now: Time, key: string)
    requires SameKeys(a, b, now)
    ensures SameKeys(Get(a, now, key).0, Get(b, now, key).0, now) && Get(a, now, key).1 == Get(b, now, key).1
  {
    assert KeyView(a, now, key) == KeyView(b, now, key);
    forall k ensures KeyView(Get(a, now, key).0, now, k) == KeyView(Get(b, now, key).0, now, k) {
      assert KeyView(a, now, k) == KeyView(b, now, k);
    }
  }

  lemma CountIsSame(a: Keys, b: Keys, now: Time)
    requires SameKeys(a, b, now)
    ensures |LiveKeys(a, now)| == |LiveKeys(b, now)|
  {
    forall k ensures k in LiveKeys(a, now) <==> k in LiveKeys(b, now) {
      assert KeyView(a, now, k) == KeyView(b, now, k);
    }
    assert LiveKeys(a, now).Keys == LiveKeys(b, now).Keys;
  }

  /** One operation on two stores with the same live keys. */
  lemma KeyStepIsSame(s: State, t: State, e: Event)
    requires SameKeys(s.kv, t.kv, e.now)
    ensures SameKeys(Step(s, e).0.kv, Step(t, e).0.kv, e.now)
    ensures AsksKeys(e.op) ==> Step(s, e).1 == Step(t, e).1
  {
    hide SweptVectors, GonePairs, GoneKeys, VSet, VMSet, VGet, VDel, VSnapshot, VExpire, VNSDrop, LivePairs, Get, Del,
      LiveKeys;
    var now := e.now;
    match e.op
    case Sweep => SweepIsSame(s.kv, t.kv, now);
    case SetOp(key, value) => PutIsSame(s.kv, t.kv, now, key, Plain(value));
    case SetTTLOp(key, value, ttl) => PutIsSame(s.kv, t.kv, now, key, KvEntry(value, true, now + ttl));
    case GetOp(key) => GetIsSame(s.kv, t.kv, now, key);
    case DelOp(keys) => RemoveIsSame(s.kv, t.kv, now, set k | k in keys);
    case ExpireOp(key, ttl) =>
      assert KeyView(s.kv, now, key) == KeyView(t.kv, now, key);
      if KeyView(s.kv, now, key).Some? {
        PutIsSame(s.kv, t.kv, now, key, KvEntry(s.kv[key].value, true, now + ttl));
      }
    case TtlOp(key) => assert KeyView(s.kv, now, key) == KeyView(t.kv, now, key);
    case CountOp => CountIsSame(s.kv, t.kv, now);
    case _ =>
  }

  lemma SweepKeysOne(s: State, t: State, now: Time)
    requires SameKeys(s.kv, t.kv, now)
    ensures SameKeys(Step(s, Event(now, Sweep)).0.kv, t.kv, now)
  {
    SweepIsSame(s.kv, t.kv, now);
  }

  /** Sweeps anywhere in a run change no answer of Get, TTL, Expire or KVCount. */
  lemma {:induction false} SweepsHideKeys(s: State, events: seq<Event>, now: Time)
    requires Timely(events) && (events == [] || events[|events| - 1].now <= now)
    ensures SameKeys(After(s, events).kv, After(s, WithoutSweeps(events)).kv, now)
    ensures Answers(s, events, AsksKeys) == Answers(s, WithoutSweeps(events), AsksKeys)
  {
    hide Step, SameKeys, Timely;
    if events != [] {
      var front, last := events[..|events| - 1], events[|events| - 1];
      var quiet := WithoutSweeps(front);
      TimelyFront(events);
      SweepsHideKeys(s, front, last.now);
      assert last.op.Sweep? ==> last == Event(last.now, Sweep);
      if last.op.Sweep? {
        SweepKeysOne(After(s, front), After(s, quiet), last.now);
        assert WithoutSweeps(events) == quiet + [] == quiet;
      } else {
        assert WithoutSweeps(events) == quiet + [last];
        KeyStepIsSame(After(s, front), After(s, quiet), last);
        AfterNext(s, quiet, last);
        AnswersNext(s, quiet, last, AsksKeys);
      }
      SameKeysLater(After(s, events).kv, After(s, WithoutSweeps(events)).kv, last.now, now);
    } else {
      KeysAreTheSame(s.kv, now);
    }
  }

  lemma KeysAreTheSame(kv: Keys, now: Time)
    ensures SameKeys(kv, kv, now)
  {
  }

  // ---------- vectors ----------

  function VectorView(v: Vectors, now: Time, ns: string, id: string): Option<VecEntry> {
    if ns in v && id in v[ns].entries && !v[ns].entries[id].Expired(now) then Some(v[ns].entries[id]) else None
  }

  /** The default TTL that VEXPIRE left in a namespace. */
  function DefaultOf(v: Vectors, ns: string): Option<Time> {
    if ns in v && v[ns].hasDefaultTTL then Some(v[ns].defaultTTL) else None
  }

  /** The same live vectors, and the same defaults for vectors to come. */
  ghost predicate SameVectors(a: Vectors, b: Vectors, now: Time) {
    && (forall ns, id :: VectorView(a, now, ns, id) == VectorView(b, now, ns, id))
    && (forall ns :: DefaultOf(a, ns) == DefaultOf(b, ns))
  }

  /** A sweep would leave no namespace empty that has a default TTL. */
  ghost predicate KeepsDefaults(v: Vectors, now: Time) {
    forall ns :: ns in v && v[ns].hasDefaultTTL ==> Live(v[ns].entries, now) != map[]
  }

  lemma SameVectorsLater(a: Vectors, b: Vectors, now: Time, later: Time)
    requires SameVectors(a, b, now) && now <= later
    ensures SameVectors(a, b, later)
  {
    forall ns, id ensures VectorView(a, later, ns, id) == VectorView(b, later, ns, id) {
      assert VectorView(a, now, ns, id) == VectorView(b, now, ns, id);
    }
  }

  lemma SweptView(v: Vectors, now: Time, ns: string, id: string)
    ensures VectorView(SweptVectors(v, now), now, ns, id) == VectorView(v, now, ns, id)
  {
    if ns in v && id in v[ns].entries && !v[ns].entries[id].Expired(now) {
      assert id in Live(v[ns].entries, now);
    }
  }

  lemma SweepVectorsIsSame(a: Vectors, b: Vectors, now: Time)
    requires SameVectors(a, b, now) && KeepsDefaults(a, now)
    ensures SameVectors(SweptVectors(a, now), b, now)
  {
    forall ns, id ensures VectorView(SweptVectors(a, now), now, ns, id) == VectorView(b, now, ns, id) {
      SweptView(a, now, ns, id);
    }
    forall ns ensures DefaultOf(SweptVectors(a, now), ns) == DefaultOf(b, ns) {
      assert DefaultOf(a, ns) == DefaultOf(b, ns);
    }
  }

  /** A sweep keeps the default of a namespace exactly if something in it is live. */
  lemma SweptDefault(v: Vectors, now: Time, ns: string)
    ensures DefaultOf(SweptVectors(v, now), ns)
         == if exists id :: VectorView(v, now, ns, id).Some? then DefaultOf(v, ns) else None
  {
    if ns in v {
      if id :| VectorView(v, now, ns, id).Some? {
        assert id in Live(v[ns].entries, now);
      } else {
        forall id ensures id !in Live(v[ns].entries, now) {
          assert VectorView(v, now, ns, id) == None;
        }
        assert Live(v[ns].entries, now) == map[];
      }
    }
  }

  lemma SweepBothIsSame(a: Vectors, b: Vectors, now: Time)
    requires SameVectors(a, b, now)
    ensures SameVectors(SweptVectors(a, now), SweptVectors(b, now), now)
  {
    hide SweptVectors, VectorView, DefaultOf;
    var a', b' := SweptVectors(a, now), SweptVectors(b, now);
    forall ns, id ensures VectorView(a', now, ns, id) == VectorView(b', now, ns, id) {
      SweptView(a, now, ns, id);
      SweptView(b, now, ns, id);
    }
    forall ns ensures DefaultOf(a', ns) == DefaultOf(b', ns) {
      SweptDefault(a, now, ns);
      SweptDefault(b, now, ns);
      assert forall id :: VectorView(a, now, ns, id) == VectorView(b, now, ns, id);
      assert DefaultOf(a, ns) == DefaultOf(b, ns);
    }
  }

  lemma PutView(v: Vectors, now: Time, ns: string, id: string, vector: seq<real>, metadata: Metadata, ttl: Time,
                ns': string, id': string)
    ensures var e := NewEntry(NamespaceOf(v, ns), now, vector, metadata, ttl);
      var v' := v[ns := Put(NamespaceOf(v, ns), now, id, vector, metadata, ttl)];
      && DefaultOf(v', ns') == DefaultOf(v, ns')
      && VectorView(v', now, ns', id')
        == if ns' == ns && id' == id then (if e.Expired(now) then None else Some(e)) else VectorView(v, now, ns', id')
  {
  }

  /** A new entry depends on its namespace through the default alone. */
  lemma NewEntryIsSame(a: Vectors, b: Vectors, now: Time, ns: string, vector: seq<real>, metadata: Metadata, ttl: Time)
    requires DefaultOf(a, ns) == DefaultOf(b, ns)
    ensures NewEntry(NamespaceOf(a, ns), now, vector, metadata, ttl)
         == NewEntry(NamespaceOf(b, ns), now, vector, metadata, ttl)
  {
  }

  lemma VSetIsSame(a: Vectors, b: Vectors, now: Time, ns: string, id: string, vector: seq<real>, metadata: Metadata,
                   ttl: Time)
    requires SameVectors(a, b, now)
    ensures SameVectors(a[ns := Put(NamespaceOf(a, ns), now, id, vector, metadata, ttl)],
                        b[ns := Put(NamespaceOf(b, ns), now, id, vector, metadata, ttl)], now)
  {
    hide Put, NewEntry, VectorView, NamespaceOf, DefaultOf;
    var a', b' := a[ns := Put(NamespaceOf(a, ns), now, id, vector, metadata, ttl)],
                  b[ns := Put(NamespaceOf(b, ns), now, id, vector, metadata, ttl)];
    assert DefaultOf(a, ns) == DefaultOf(b, ns);
    NewEntryIsSame(a, b, now, ns, vector, metadata, ttl);
    forall ns', id' ensures VectorView(a', now, ns', id') == VectorView(b', now, ns', id') {
      PutView(a, now, ns, id, vector, metadata, ttl, ns', id');
      PutView(b, now, ns, id, vector, metadata, ttl, ns', id');
      assert VectorView(a, now, ns', id') == VectorView(b, now, ns', id');
    }
    forall ns' ensures DefaultOf(a', ns') == DefaultOf(b', ns') {
      PutView(a, now, ns, id, vector, metadata, ttl, ns', id);
      PutView(b, now, ns, id, vector, metadata, ttl, ns', id);
      assert DefaultOf(a, ns') == DefaultOf(b, ns');
    }
  }

  /** A batch, entry by entry. */
  lemma {:induction false} BatchIsSame(a: Vectors, b: Vectors, now: Time, ns: string, dim: int,
                                       batch: seq<BatchEntry>, k: nat)
    requires SameVectors(a, b, now) && k <= |batch|
    ensures var x, y := PutAll(NamespaceOf(a, ns), now, dim, batch, k), PutAll(NamespaceOf(b, ns), now, dim, batch, k);
      x.1 == y.1 && SameVectors(a[ns := x.0], b[ns := y.0], now)
  {
    hide Put, NewEntry, VectorView, DefaultOf;
    if k == 0 {
      NamespaceIsSame(a, now, ns);
      NamespaceIsSame(b, now, ns);
      Transitive(a, b, a[ns := NamespaceOf(a, ns)], b[ns := NamespaceOf(b, ns)], now);
    } else {
      BatchIsSame(a, b, now, ns, dim, batch, k - 1);
      var x := PutAll(NamespaceOf(a, ns), now, dim, batch, k - 1);
      var y := PutAll(NamespaceOf(b, ns), now, dim, batch, k - 1);
      var e := batch[k - 1];
      if x.1 == k - 1 && |e.vector| == dim {
        var a', b' := a[ns := x.0], b[ns := y.0];
        VSetIsSame(a', b', now, ns, e.id, e.vector, e.metadata, 0);
        var p, q := Put(x.0, now, e.id, e.vector, e.metadata, 0), Put(y.0, now, e.id, e.vector, e.metadata, 0);
        assert a'[ns := p] == a[ns := p] && b'[ns := q] == b[ns := q];
      }
    }
  }

  lemma NamespaceIsSame(v: Vectors, now: Time, ns: string)
    ensures SameVectors(v[ns := NamespaceOf(v, ns)], v, now)
  {
  }

  lemma Transitive(a: Vectors, b: Vectors, a': Vectors, b': Vectors, now: Time)
    requires SameVectors(a, b, now) && SameVectors(a', a, now) && SameVectors(b', b, now)
    ensures SameVectors(a', b', now)
  {
    forall ns, id ensures VectorView(a', now, ns, id) == VectorView(b', now, ns, id) {
      assert VectorView(a', now, ns, id) == VectorView(a, now, ns, id);
      assert VectorView(b', now, ns, id) == VectorView(b, now, ns, id);
      assert VectorView(a, now, ns, id) == VectorView(b, now, ns, id);
    }
    forall ns ensures DefaultOf(a', ns) == DefaultOf(b', ns) {
      assert DefaultOf(a', ns) == DefaultOf(a, ns);
      assert DefaultOf(b', ns) == DefaultOf(b, ns);
      assert DefaultOf(a, ns) == DefaultOf(b, ns);
    }
  }

  lemma VDelIsSame(a: Vectors, b: Vectors, now: Time, ns: string, id: string)
    requires SameVectors(a, b, now)
    ensures SameVectors(VDel(a, ns, id).0, VDel(b, ns, id).0, now)
  {
    var a', b' := VDel(a, ns, id).0, VDel(b, ns, id).0;
    forall ns', id' ensures VectorView(a', now, ns', id') == VectorView(b', now, ns', id') {
      assert VectorView(a, now, ns', id') == VectorView(b, now, ns', id');
    }
    forall ns' ensures DefaultOf(a', ns') == DefaultOf(b', ns') {
      assert DefaultOf(a, ns') == DefaultOf(b, ns');
    }
  }

  lemma VGetIsSame(a: Vectors, b: Vectors, now: Time, ns: string, id: string)
    requires SameVectors(a, b, now)
    ensures var x, y := VGet(a, now, ns, id), VGet(b, now, ns, id); x.1 == y.1 && SameVectors(x.0, y.0, now)
  {
    assert VectorView(a, now, ns, id) == VectorView(b, now, ns, id);
    var a', b' := VGet(a, now, ns, id).0, VGet(b, now, ns, id).0;
    forall ns', id' ensures VectorView(a', now, ns', id') == VectorView(b', now, ns', id') {
      assert VectorView(a, now, ns', id') == VectorView(b, now, ns', id');
    }
    forall ns' ensures DefaultOf(a', ns') == DefaultOf(b', ns') {
      assert DefaultOf(a, ns') == DefaultOf(b, ns');
    }
  }

  lemma VDropIsSame(a: Vectors, b: Vectors, now: Time, ns: string)
    requires SameVectors(a, b, now)
    ensures SameVectors(a - {ns}, b - {ns}, now)
  {
    var a', b' := a - {ns}, b - {ns};
    forall ns', id' ensures VectorView(a', now, ns', id') == VectorView(b', now, ns', id') {
      assert VectorView(a, now, ns', id') == VectorView(b, now, ns', id');
    }
    forall ns' ensures DefaultOf(a', ns') == DefaultOf(b', ns') {
      assert DefaultOf(a, ns') == DefaultOf(b, ns');
    }
  }

  lemma SnapshotIsSame(a: Vectors, b: Vectors, now: Time, ns: string)
    requires SameVectors(a, b, now)
    ensures VSnapshot(a, now, ns) == VSnapshot(b, now, ns)
  {
    forall id ensures id in VSnapshot(a, now, ns) <==> VectorView(a, now, ns, id).Some? {}
    forall id ensures id in VSnapshot(b, now, ns) <==> VectorView(b, now, ns, id).Some? {}
    forall id ensures id in VSnapshot(a, now, ns) <==> id in VSnapshot(b, now, ns) {
      assert VectorView(a, now, ns, id) == VectorView(b, now, ns, id);
    }
    forall id | id in VSnapshot(a, now, ns) ensures VSnapshot(a, now, ns)[id] == VSnapshot(b, now, ns)[id] {
      assert VectorView(a, now, ns, id) == VectorView(b, now, ns, id);
    }
  }

  lemma TotalIsSame(a: Vectors, b: Vectors, now: Time)
    requires SameVectors(a, b, now)
    ensures LivePairs(a, now) == LivePairs(b, now)
  {
    forall p ensures p in LivePairs(a, now) <==> p in LivePairs(b, now) {
      assert VectorView(a, now, p.0, p.1) == VectorView(b, now, p.0, p.1);
    }
  }

  /** One operation, other than VEXPIRE, on two stores with the same live vectors and defaults. */
  lemma VectorStepIsSame(s: State, t: State, e: Event)
    requires SameVectors(s.vectors, t.vectors, e.now) && !e.op.VExpireOp?
    ensures SameVectors(Step(s, e).0.vectors, Step(t, e).0.vectors, e.now)
    ensures AsksVectors(e.op) ==> Step(s, e).1 == Step(t, e).1
  {
    hide SameVectors, SweptVectors, GonePairs, GoneKeys, VGet, VDel, VSnapshot, VExpire, LivePairs, Get, Del, Expire,
      LiveKeys, Put, PutAll, NamespaceOf;
    var now, a, b := e.now, s.vectors, t.vectors;
    match e.op
    case Sweep => SweepBothIsSame(a, b, now);
    case VSetOp(ns, id, dim, vector, metadata, ttl) => VSetIsSame(a, b, now, ns, id, vector, metadata, ttl);
    case VMSetOp(ns, dim, batch) => BatchIsSame(a, b, now, ns, dim, batch, |batch|);
    case VGetOp(ns, id) => VGetIsSame(a, b, now, ns, id);
    case VDelOp(ns, id) => VDelIsSame(a, b, now, ns, id);
    case VDropOp(ns) => VDropIsSame(a, b, now, ns);
    case VCountOp(ns) => SnapshotIsSame(a, b, now, ns);
    case VSnapshotOp(ns) => SnapshotIsSame(a, b, now, ns);
    case TotalOp => TotalIsSame(a, b, now);
    case _ =>
  }

  lemma SweepVectorsOne(s: State, t: State, now: Time)
    requires SameVectors(s.vectors, t.vectors, now) && KeepsDefaults(s.vectors, now)
    ensures SameVectors(Step(s, Event(now, Sweep)).0.vectors, t.vectors, now)
  {
    SweepVectorsIsSame(s.vectors, t.vectors, now);
  }

  ghost predicate NoVExpire(events: seq<Event>) {
    forall i :: 0 <= i < |events| ==> !events[i].op.VExpireOp?
  }

  /** No sweep of the run leaves a namespace empty that has a default TTL. */
  ghost predicate HarmlessSweeps(s: State, events: seq<Event>) {
    events != [] ==>
      var front, last := events[..|events| - 1], events[|events| - 1];
      HarmlessSweeps(s, front) && (last.op.Sweep? ==> KeepsDefaults(After(s, front).vectors, last.now))
  }

  /** In a run without VEXPIRE, sweeps anywhere change no answer of VGet, VCount, VSnapshot or
      TotalVectors, nor of the writes, as long as they empty no namespace with a default TTL. */
  lemma {:induction false} HarmlessSweepsHide(s: State, events: seq<Event>, now: Time)
    requires Timely(events) && (events == [] || events[|events| - 1].now <= now)
    requires NoVExpire(events) && HarmlessSweeps(s, events)
    ensures SameVectors(After(s, events).vectors, After(s, WithoutSweeps(events)).vectors, now)
    ensures Answers(s, events, AsksVectors) == Answers(s, WithoutSweeps(events), AsksVectors)
  {
    hide Step, SameVectors, KeepsDefaults, Timely;
    if events != [] {
      var front, last := events[..|events| - 1], events[|events| - 1];
      var quiet := WithoutSweeps(front);
      TimelyFront(events);
      HarmlessSweepsHide(s, front, last.now);
      assert last.op.Sweep? ==> last == Event(last.now, Sweep);
      if last.op.Sweep? {
        SweepVectorsOne(After(s, front), After(s, quiet), last.now);
        assert WithoutSweeps(events) == quiet + [] == quiet;
      } else {
        assert WithoutSweeps(events) == quiet + [last];
        VectorStepIsSame(After(s, front), After(s, quiet), last);
        AfterNext(s, quiet, last);
        AnswersNext(s, quiet, last, AsksVectors);
      }
      SameVectorsLater(After(s, events).vectors, After(s, WithoutSweeps(events)).vectors, last.now, now);
    } else {
      VectorsAreTheSame(s.vectors, now);
    }
  }

  lemma VectorsAreTheSame(v: Vectors, now: Time)
    ensures SameVectors(v, v, now)
  {
  }

  /** No namespace has a default TTL: none was ever given by VEXPIRE. */
  ghost predicate NoDefaults(v: Vectors) {
    forall ns :: DefaultOf(v, ns) == None
  }

  lemma {:induction false} BatchKeepsDefault(n: Namespace, now: Time, dim: int, batch: seq<BatchEntry>, k: nat)
    requires k <= |batch|
    ensures var r := PutAll(n, now, dim, batch, k).0;
      r.hasDefaultTTL == n.hasDefaultTTL && r.defaultTTL == n.defaultTTL
  {
    if k > 0 {
      BatchKeepsDefault(n, now, dim, batch, k - 1);
    }
  }

  lemma StepKeepsNoDefaults(s: State, e: Event)
    requires NoDefaults(s.vectors) && !e.op.VExpireOp?
    ensures NoDefaults(Step(s, e).0.vectors)
  {
    hide GonePairs, GoneKeys, VSnapshot, VExpire, LivePairs, Get, Del, Expire, LiveKeys, NewEntry, Live, PutAll;
    if e.op.VMSetOp? {
      BatchKeepsDefault(NamespaceOf(s.vectors, e.op.ns), e.now, e.op.dim, e.op.batch, |e.op.batch|);
    }
    forall ns ensures DefaultOf(Step(s, e).0.vectors, ns) == None {
      assert DefaultOf(s.vectors, ns) == None;
      if e.op.VMSetOp? || e.op.VSetOp? {
        assert DefaultOf(s.vectors, e.op.ns) == None;
      }
    }
  }

  lemma {:induction false} NoDefaultsNoHarm(s: State, events: seq<Event>)
    requires NoDefaults(s.vectors) && NoVExpire(events)
    ensures NoDefaults(After(s, events).vectors) && HarmlessSweeps(s, events)
  {
    hide Step, NoDefaults;
    if events != [] {
      var front, last := events[..|events| - 1], events[|events| - 1];
      NoDefaultsNoHarm(s, front);
      StepKeepsNoDefaults(After(s, front), last);
      NoneToDrop(After(s, front).vectors, last.now);
    }
  }

  lemma NoneToDrop(v: Vectors, now: Time)
    requires NoDefaults(v)
    ensures KeepsDefaults(v, now)
  {
    forall ns | ns in v ensures !v[ns].hasDefaultTTL {
      assert DefaultOf(v, ns) == None;
    }
  }

  /** From a store without defaults, in every run without VEXPIRE, sweeps anywhere change no answer. */
  lemma SweepsHideVectors(s: State, events: seq<Event>)
    requires Timely(events) && NoDefaults(s.vectors) && NoVExpire(events)
    ensures Answers(s, events, AsksVectors) == Answers(s, WithoutSweeps(events), AsksVectors)
  {
    NoDefaultsNoHarm(s, events);
    HarmlessSweepsHide(s, events, if events == [] then 0 else events[|events| - 1].now);
  }

  // ---------- when a sweep does show ----------

  /** DEL counts alike before and after a sweep exactly if no stored key among its own has expired. */
  lemma DelShowsSweepsExactly(kv: Keys, now: Time, keys: seq<string>)
    ensures Del(LiveKeys(kv, now), keys).1 == Del(kv, keys).1
       <==> forall k :: k in keys && k in kv ==> !kv[k].Expired(now)
  {
    DelCounts(kv, keys);
    DelCounts(LiveKeys(kv, now), keys);
    var all, live := set k | k in keys && k in kv, set k | k in keys && k in LiveKeys(kv, now);
    assert live <= all;
    if k :| k in keys && k in kv && kv[k].Expired(now) {
      assert live <= all - {k};
      SubsetSize(live, all - {k});
    } else {
      assert live == all;
    }
  }

  /** VDEL answers alike before and after a sweep exactly if its vector has not expired. */
  lemma VDelShowsSweepsExactly(v: Vectors, now: Time, ns: string, id: string)
    ensures VDel(SweptVectors(v, now), ns, id).1 == VDel(v, ns, id).1
       <==> !(ns in v && id in v[ns].entries && v[ns].entries[id].Expired(now))
  {
    SweptView(v, now, ns, id);
    if ns in v && id in v[ns].entries && !v[ns].entries[id].Expired(now) {
      assert VectorView(SweptVectors(v, now), now, ns, id).Some?;
    }
  }

  /** From two stores that agree, every later run without VEXPIRE gets the same answers. */
  lemma {:induction false} SameAnswers(s: State, t: State, start: Time, events: seq<Event>, now: Time)
    requires SameVectors(s.vectors, t.vectors, start) && NoVExpire(events)
    requires Timely([Event(start, Sweep)] + events) && start <= now
    requires events != [] ==> events[|events| - 1].now <= now
    ensures SameVectors(After(s, events).vectors, After(t, events).vectors, now)
    ensures Answers(s, events, AsksVectors) == Answers(t, events, AsksVectors)
  {
    hide Step, SameVectors;
    if events == [] {
      SameVectorsLater(s.vectors, t.vectors, start, now);
    } else {
      var front, last := events[..|events| - 1], events[|events| - 1];
      var all := [Event(start, Sweep)] + events;
      assert all[..|all| - 1] == [Event(start, Sweep)] + front && all[0].now <= all[|all| - 1].now;
      TimelyFront(all);
      SameAnswers(s, t, start, front, last.now);
      VectorStepIsSame(After(s, front), After(t, front), last);
      SameVectorsLater(After(s, events).vectors, After(t, events).vectors, last.now, now);
    }
  }

  /** The run that tells a swept namespace with a default from the same one unswept: what is
      stored there expires without the sweep and stays with it. */
  function Probe(now: Time, ns: string, default: Time): seq<Event> {
    var late := if default > 0 then now + default + 1 else now + 1;
    [Event(now, VSetOp(ns, "", 0, [], map[], 0)), Event(late, VGetOp(ns, ""))]
  }

  lemma ProbeAnswers(s: State, now: Time, ns: string, default: Time)
    ensures var late := if default > 0 then now + default + 1 else now + 1;
      var stored := Step(s, Event(now, VSetOp(ns, "", 0, [], map[], 0))).0;
      Answers(s, Probe(now, ns, default), AsksVectors) == [Flag(true), Step(stored, Event(late, VGetOp(ns, ""))).1]
  {
    hide Step, Timely;
    var probe := Probe(now, ns, default);
    AnswersNext(s, [], probe[0], AsksVectors);
    AnswersNext(s, [probe[0]], probe[1], AsksVectors);
    AfterNext(s, [], probe[0]);
    assert [] + [probe[0]] == [probe[0]] && [probe[0]] + [probe[1]] == probe;
    StoreAnswers(s, now, ns);
  }

  lemma StoreAnswers(s: State, now: Time, ns: string)
    ensures Step(s, Event(now, VSetOp(ns, "", 0, [], map[], 0))).1 == Flag(true)
  {
  }

  lemma ProbeTells(s: State, now: Time, ns: string)
    requires ns in s.vectors && s.vectors[ns].hasDefaultTTL && Live(s.vectors[ns].entries, now) == map[]
    ensures var probe := Probe(now, ns, s.vectors[ns].defaultTTL);
      && Timely([Event(now, Sweep)] + probe) && NoVExpire(probe)
      && Answers(Step(s, Event(now, Sweep)).0, probe, AsksVectors) != Answers(s, probe, AsksVectors)
  {
    hide Step, Answers, Live, Timely;
    var default := s.vectors[ns].defaultTTL;
    var swept := Step(s, Event(now, Sweep)).0;
    SweepTakes(s, now, ns);
    ProbeAnswers(s, now, ns, default);
    ProbeAnswers(swept, now, ns, default);
    LateAnswer(s, now, ns, default);
    LateAnswer(swept, now, ns, default);
    ProbeIsTimely(now, ns, default);
  }

  lemma SweepTakes(s: State, now: Time, ns: string)
    requires ns in s.vectors && Live(s.vectors[ns].entries, now) == map[]
    ensures ns !in Step(s, Event(now, Sweep)).0.vectors
  {
  }

  lemma ProbeIsTimely(now: Time, ns: string, default: Time)
    ensures Timely([Event(now, Sweep)] + Probe(now, ns, default))
  {
  }

  /** What the probe stored is gone exactly if the default was there. */
  lemma LateAnswer(s: State, now: Time, ns: string, default: Time)
    requires ns in s.vectors ==> s.vectors[ns].hasDefaultTTL && s.vectors[ns].defaultTTL == default
    ensures var late := if default > 0 then now + default + 1 else now + 1;
      var stored := Step(s, Event(now, VSetOp(ns, "", 0, [], map[], 0))).0;
      Step(stored, Event(late, VGetOp(ns, ""))).1 == Entry(None) <==> ns in s.vectors
  {
  }

  /** A sweep can be seen by no later run without VEXPIRE exactly if it leaves no namespace
      empty that has a default TTL. */
  lemma SweepShowsExactly(s: State, now: Time)
    ensures (forall events :: Timely([Event(now, Sweep)] + events) && NoVExpire(events) ==>
               Answers(Step(s, Event(now, Sweep)).0, events, AsksVectors) == Answers(s, events, AsksVectors))
       <==> KeepsDefaults(s.vectors, now)
  {
    var swept := Step(s, Event(now, Sweep)).0;
    if KeepsDefaults(s.vectors, now) {
      VectorsAreTheSame(s.vectors, now);
      SweepVectorsOne(s, s, now);
      forall events | Timely([Event(now, Sweep)] + events) && NoVExpire(events)
        ensures Answers(swept, events, AsksVectors) == Answers(s, events, AsksVectors)
      {
        var all := [Event(now, Sweep)] + events;
        assert all[0].now <= all[|all| - 1].now;
        SameAnswers(swept, s, now, events, all[|all| - 1].now);
      }
    } else {
      var ns :| ns in s.vectors && s.vectors[ns].hasDefaultTTL && Live(s.vectors[ns].entries, now) == map[];
      ProbeTells(s, now, ns);
    }
  }

  lemma Stored(now: Time, vector: seq<real>)
    ensures Step(State(map[], map[]), Event(now, VSetOp("n", "x", |vector|, vector, map[], 0))).0
         == State(map[], map["n" := Namespace(map["x" := VecEntry(vector, map[], false, 0)], false, 0)])
  {
  }

  lemma Expired(now: Time, vector: seq<real>)
    ensures Step(State(map[], map["n" := Namespace(map["x" := VecEntry(vector, map[], false, 0)], false, 0)]),
                 Event(now, VExpireOp("n", SECOND))).0
         == State(map[], map["n" := Namespace(map["x" := VecEntry(vector, map[], true, now + SECOND)], true, SECOND)])
  {
    var v := map["n" := Namespace(map["x" := VecEntry(vector, map[], false, 0)], false, 0)];
    assert VExpire(v, now, "n", SECOND).0["n"].entries == map["x" := VecEntry(vector, map[], true, now + SECOND)];
  }

  lemma Emptied(now: Time, vector: seq<real>)
    ensures var e := VecEntry(vector, map[], true, now + SECOND);
      Step(State(map[], map["n" := Namespace(map["x" := e], true, SECOND)]), Event(now, VDelOp("n", "x"))).0
        == State(map[], map["n" := Namespace(map[], true, SECOND)])
  {
    assert map["x" := VecEntry(vector, map[], true, now + SECOND)] - {"x"} == map[];
  }

  /** VSET, VEXPIRE and VDEL lead to an empty namespace with a default TTL, where a sweep shows. */
  lemma VExpireShowsSweeps(now: Time, vector: seq<real>)
    ensures var run := [Event(now, VSetOp("n", "x", |vector|, vector, map[], 0)), Event(now, VExpireOp("n", SECOND)),
                        Event(now, VDelOp("n", "x"))];
      var s := After(State(map[], map[]), run);
      && s.vectors == map["n" := Namespace(map[], true, SECOND)]
      && exists events :: Timely([Event(now, Sweep)] + events) && NoVExpire(events)
           && Answers(Step(s, Event(now, Sweep)).0, events, AsksVectors) != Answers(s, events, AsksVectors)
  {
    hide Step, Probe, Timely, NoVExpire;
    var s0 := State(map[], map[]);
    var a, b, c := Event(now, VSetOp("n", "x", |vector|, vector, map[], 0)), Event(now, VExpireOp("n", SECOND)),
                   Event(now, VDelOp("n", "x"));
    AfterNext(s0, [], a);
    AfterNext(s0, [a], b);
    AfterNext(s0, [a, b], c);
    assert [] + [a] == [a] && [a] + [b] == [a, b] && [a, b] + [c] == [a, b, c];
    Stored(now, vector);
    Expired(now, vector);
    Emptied(now, vector);
    var s := After(s0, [a, b, c]);
    assert Live(s.vectors["n"].entries, now) == map[];
    ProbeTells(s, now, "n");
  }
}
