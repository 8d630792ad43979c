/** What each operation of the store does to its maps, store.go and vector.go, as functions of
    the state before and of one reading of the clock. */
module StoreSpec {
  import opened Text

  /** Nanoseconds. */
  type Time = int

  const SECOND: Time := 1_000_000_000

  datatype KvEntry = KvEntry(value: string, hasTTL: bool, expiresAt: Time) {
    predicate Expired(now: Time) { hasTTL && now > expiresAt }
  }

  type Metadata = map<string, string>

  datatype VecEntry = VecEntry(vector: seq<real>, metadata: Metadata, hasTTL: bool, expiresAt: Time) {
    predicate Expired(now: Time) { hasTTL && now > expiresAt }
  }

  datatype Namespace = Namespace(entries: map<string, VecEntry>, hasDefaultTTL: bool, defaultTTL: Time)

  type Keys = map<string, KvEntry>
  type Vectors = map<string, Namespace>

  const NEW_NAMESPACE := Namespace(map[], false, 0)

  // ---------- keys ----------

  function LiveKeys(kv: Keys, now: Time): Keys {
    map k | k in kv && !kv[k].Expired(now) :: kv[k]
  }

  function Plain(value: string): KvEntry { KvEntry(value, false, 0) }

  function Get(kv: Keys, now: Time, key: string): (Keys, Option<string>) {
    if key !in kv then (kv, None)
    else if kv[key].Expired(now) then (kv - {key}, None)
    else (kv, Some(kv[key].value))
  }

  function Del(kv: Keys, keys: seq<string>): (r: (Keys, nat))
    ensures r.0 == kv - set k | k in keys
  {
    if keys == [] then
      assert kv - {} == kv;
      (kv, 0)
    else
      var front := Del(kv, keys[..|keys| - 1]);
      var last := keys[|keys| - 1];
      assert keys == keys[..|keys| - 1] + [last];
      if last in front.0 then (front.0 - {last}, front.1 + 1) else (front.0, front.1)
  }

  /** DEL counts the distinct keys that were there, expired or not, and removes exactly those. */
  lemma {:induction false} DelCounts(kv: Keys, keys: seq<string>)
    ensures Del(kv, keys).1 == |set k | k in keys && k in kv|
  {
    if keys != [] {
      var front, last := keys[..|keys| - 1], keys[|keys| - 1];
      DelCounts(kv, front);
      var before, after := set k | k in front && k in kv, set k | k in keys && k in kv;
      assert keys == front + [last];
      assert after == if last in Del(kv, front).0 then before + {last} else before;
      assert last in Del(kv, front).0 ==> last !in before;
    }
  }

  function Expire(kv: Keys, now: Time, key: string, ttl: Time): (Keys, bool) {
    if key !in kv || kv[key].Expired(now) then (kv, false)
    else (kv[key := KvEntry(kv[key].value, true, now + ttl)], true)
  }

  function Ttl(kv: Keys, now: Time, key: string): int {
    if key !in kv || kv[key].Expired(now) then -2
    else if !kv[key].hasTTL then -1
    else if kv[key].expiresAt - now <= 0 then -2
    else (kv[key].expiresAt - now) / SECOND
  }

  // ---------- vectors ----------

  function Live(entries: map<string, VecEntry>, now: Time): map<string, VecEntry> {
    map id | id in entries && !entries[id].Expired(now) :: entries[id]
  }

  function NamespaceOf(v: Vectors, ns: string): Namespace {
    if ns in v then v[ns] else NEW_NAMESPACE
  }

  /** Explicit TTL, else the default of the namespace, else none. */
  function NewEntry(n: Namespace, now: Time, vector: seq<real>, metadata: Metadata, ttl: Time): VecEntry {
    if ttl > 0 then VecEntry(vector, metadata, true, now + ttl)
    else if ttl == 0 && n.hasDefaultTTL then VecEntry(vector, metadata, true, now + n.defaultTTL)
    else VecEntry(vector, metadata, false, 0)
  }

  function Put(n: Namespace, now: Time, id: string, vector: seq<real>, metadata: Metadata, ttl: Time): Namespace {
    n.(entries := n.entries[id := NewEntry(n, now, vector, metadata, ttl)])
  }

  /** The error of a vector whose length is not the declared dimension leaves all as it was. */
  function VSet(v: Vectors, now: Time, ns: string, id: string, dim: int, vector: seq<real>, metadata: Metadata,
                ttl: Time)
    : (Vectors, bool)
  {
    if |vector| != dim then (v, false)
    else (v[ns := Put(NamespaceOf(v, ns), now, id, vector, metadata, ttl)], true)
  }

  datatype BatchEntry = BatchEntry(id: string, vector: seq<real>, metadata: Metadata)

  /** The first k entries of a batch stored, up to the first of a wrong length. */
  function PutAll(n: Namespace, now: Time, dim: int, batch: seq<BatchEntry>, k: nat): (r: (Namespace, nat))
    requires k <= |batch|
    ensures r.1 <= k
  {
    if k == 0 then (n, 0) else
      var before := PutAll(n, now, dim, batch, k - 1);
      if before.1 < k - 1 || |batch[k - 1].vector| != dim then before
      else (Put(before.0, now, batch[k - 1].id, batch[k - 1].vector, batch[k - 1].metadata, 0), k)
  }

  function VMSet(v: Vectors, now: Time, ns: string, dim: int, batch: seq<BatchEntry>): (Vectors, nat) {
    var r := PutAll(NamespaceOf(v, ns), now, dim, batch, |batch|);
    (v[ns := r.0], r.1)
  }

  function VGet(v: Vectors, now: Time, ns: string, id: string): (Vectors, Option<VecEntry>) {
    if ns !in v || id !in v[ns].entries then (v, None)
    else if v[ns].entries[id].Expired(now) then (v[ns := v[ns].(entries := v[ns].entries - {id})], None)
    else (v, Some(v[ns].entries[id]))
  }

  function VDel(v: Vectors, ns: string, id: string): (Vectors, bool) {
    if ns !in v || id !in v[ns].entries then (v, false)
    else (v[ns := v[ns].(entries := v[ns].entries - {id})], true)
  }

  function VSnapshot(v: Vectors, now: Time, ns: string): map<string, VecEntry> {
    Live(NamespaceOf(v, ns).entries, now)
  }

  /** The live vectors of all namespaces. */
  function LivePairs(v: Vectors, now: Time): set<(string, string)> {
    set ns, id | ns in v && id in Live(v[ns].entries, now) :: (ns, id)
  }

  function VExpire(v: Vectors, now: Time, ns: string, ttl: Time): (Vectors, bool) {
    if ns !in v then (v, false)
    else
      var entries := map id | id in v[ns].entries ::
        if v[ns].entries[id].hasTTL then v[ns].entries[id]
        else VecEntry(v[ns].entries[id].vector, v[ns].entries[id].metadata, true, now + ttl);
      (v[ns := Namespace(entries, true, ttl)], true)
  }

  function VNSDrop(v: Vectors, ns: string): (Vectors, bool) {
    (v - {ns}, ns in v)
  }

  // ---------- the sweep ----------

  function SweptNamespace(n: Namespace, now: Time): Namespace {
    n.(entries := Live(n.entries, now))
  }

  /** Expired entries removed, and with them the namespaces left empty. */
  function SweptVectors(v: Vectors, now: Time): Vectors {
    map ns | ns in v && Live(v[ns].entries, now) != map[] :: SweptNamespace(v[ns], now)
  }

  function Gone(entries: map<string, VecEntry>, now: Time): set<string> {
    set id | id in entries && entries[id].Expired(now)
  }

  function GonePairs(v: Vectors, now: Time): set<(string, string)> {
    set ns, id | ns in v && id in Gone(v[ns].entries, now) :: (ns, id)
  }

  function GoneKeys(kv: Keys, now: Time): set<string> {
    set k | k in kv && kv[k].Expired(now)
  }

  // ---------- counts and sweeps, by what a query finds ----------

  predicate Finds(v: Vectors, now: Time, ns: string, id: string) {
    VGet(v, now, ns, id).1.Some?
  }

  /** What is counted as live is what a query finds, what a sweep counts is the rest. */
  lemma CountsAreFound(kv: Keys, v: Vectors, now: Time)
    ensures LiveKeys(kv, now).Keys == set k | k in kv && Get(kv, now, k).1.Some?
    ensures GoneKeys(kv, now) == set k | k in kv && Get(kv, now, k).1.None?
    ensures LivePairs(v, now) == set ns, id | ns in v && id in v[ns].entries && Finds(v, now, ns, id) :: (ns, id)
    ensures GonePairs(v, now) == set ns, id | ns in v && id in v[ns].entries && !Finds(v, now, ns, id) :: (ns, id)
  {
  }

  /** A sweep leaves what a query finds, as it is, and no namespace without anything of the kind. */
  lemma SweepIsExact(kv: Keys, v: Vectors, now: Time, ns: string, id: string)
    ensures forall k :: k in kv && Get(kv, now, k).1.Some? ==> k in LiveKeys(kv, now) && LiveKeys(kv, now)[k] == kv[k]
    ensures ns in SweptVectors(v, now) <==> exists i :: Finds(v, now, ns, i)
    ensures Finds(v, now, ns, id) ==>
      var n := SweptVectors(v, now)[ns];
      && id in n.entries && n.entries[id] == v[ns].entries[id]
      && n.hasDefaultTTL == v[ns].hasDefaultTTL && n.defaultTTL == v[ns].defaultTTL
    ensures ns in SweptVectors(v, now) && id in SweptVectors(v, now)[ns].entries ==> Finds(v, now, ns, id)
  {
    if ns in SweptVectors(v, now) {
      var i :| i in Live(v[ns].entries, now);
      assert Finds(v, now, ns, i);
    }
    if i :| Finds(v, now, ns, i) {
      assert i in Live(v[ns].entries, now);
    }
  }

  /** A batch is stored up to its first entry of a wrong length, and nothing after it. */
  lemma {:induction false} BatchStops(n: Namespace, now: Time, dim: int, batch: seq<BatchEntry>, j: nat, k: nat)
    requires j < k <= |batch| && |batch[j].vector| != dim && forall i :: 0 <= i < j ==> |batch[i].vector| == dim
    ensures PutAll(n, now, dim, batch, k) == PutAll(n, now, dim, batch, j)
    ensures PutAll(n, now, dim, batch, j).1 == j
  {
    AllStored(n, now, dim, batch, j);
    if k > j + 1 {
      BatchStops(n, now, dim, batch, j, k - 1);
    }
  }

  lemma {:induction false} AllStored(n: Namespace, now: Time, dim: int, batch: seq<BatchEntry>, k: nat)
    requires k <= |batch| && forall i :: 0 <= i < k ==> |batch[i].vector| == dim
    ensures PutAll(n, now, dim, batch, k).1 == k
  {
    if k > 0 {
      AllStored(n, now, dim, batch, k - 1);
    }
  }
}
