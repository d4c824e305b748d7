/** Keyed cardinality with a bounded number of keys: which key a lazily refreshed
    heap evicts. */
module HllMapSpec {
  import opened Arithmetic
  import opened FiniteSets
  import opened HllSpec
  import opened KeyOrder

  /** A sketch stands for its set of distinct hashes, which determines its storage. */
  datatype Slot = Slot(hashes: set<nat>, cached: real, dirty: bool)

  type Slots = map<Key, Slot>

  datatype Candidate = Candidate(cardinality: real, key: Key)

  /** The estimate: exact while sparse, any function of the registers once dense. */
  datatype Estimator = Estimator(precision: Precision, dense: seq<nat> -> real) {
    function Dense(hashes: set<nat>): real {
      dense(Registers(precision, hashes))
    }

    function Cardinality(hashes: set<nat>): real {
      if |hashes| <= SparseLimit(precision) then |hashes| as real else Dense(hashes)
    }

    ghost predicate Monotone() {
      forall s: set<nat>, t: set<nat> :: s <= t && AreHashes(t) ==> Cardinality(s) <= Cardinality(t)
    }
  }

  predicate Before(ca: real, a: Key, cb: real, b: Key) {
    if ca != cb then ca < cb else Less(a, b)
  }

  lemma {:induction false} BeforeIsOrder(ca: real, a: Key, cb: real, b: Key, cc: real, c: Key)
    ensures !Before(ca, a, ca, a)
    ensures a != b ==> Before(ca, a, cb, b) || Before(cb, b, ca, a)
    ensures !(Before(ca, a, cb, b) && Before(cb, b, ca, a))
    ensures Before(ca, a, cb, b) && Before(cb, b, cc, c) ==> Before(ca, a, cc, c)
  {
    LessTotal(a, b);
    LessIrreflexive(a);
    if Less(a, b) && Less(b, a) {
      LessTrans(a, b, a);
    }
    if Less(a, b) && Less(b, c) {
      LessTrans(a, b, c);
    }
  }

  /** The heap holds exactly one candidate per tracked key, at its cached value. */
  ghost predicate Mirrors(eviction: multiset<Candidate>, slots: Slots) {
    forall c :: eviction[c] == if c.key in slots && slots[c.key].cached == c.cardinality then 1 else 0
  }

  /** A cached value is an estimate of hashes already seen; a clean one is current. */
  ghost predicate CacheOk(e: Estimator, slot: Slot) {
    && AreHashes(slot.hashes)
    && (slot.dirty || slot.cached == e.Cardinality(slot.hashes))
    && exists s :: s <= slot.hashes && slot.cached == e.Cardinality(s)
  }

  ghost predicate HoldHashes(slots: Slots) {
    forall k :: k in slots ==> AreHashes(slots[k].hashes)
  }

  ghost predicate CachesOk(e: Estimator, slots: Slots) {
    forall k :: k in slots ==> CacheOk(e, slots[k])
  }

  // --- which key goes ---

  function Current(e: Estimator, slot: Slot): real {
    e.Cardinality(slot.hashes)
  }

  /** A key leaves the heap for good at the larger of its cached and current values. */
  function Level(e: Estimator, slot: Slot): real {
    if slot.cached < Current(e, slot) then Current(e, slot) else slot.cached
  }

  ghost predicate IsVictim(e: Estimator, slots: Slots, m: Key) {
    m in slots && forall j :: j in slots && j != m ==> Before(Level(e, slots[m]), m, Level(e, slots[j]), j)
  }

  /** The key the documentation promises to evict. */
  ghost predicate IsLeast(e: Estimator, slots: Slots, m: Key) {
    m in slots && forall j :: j in slots && j != m ==> Before(Current(e, slots[m]), m, Current(e, slots[j]), j)
  }

  lemma {:induction false} VictimUnique(e: Estimator, slots: Slots, m: Key, n: Key)
    requires IsVictim(e, slots, m) && IsVictim(e, slots, n)
    ensures m == n
  {
    if m != n {
      BeforeIsOrder(Level(e, slots[m]), m, Level(e, slots[n]), n, 0.0, []);
    }
  }

  /** The least key: of the smallest estimate, and among these the smallest. */
  lemma {:induction false} LeastMeans(e: Estimator, slots: Slots, m: Key)
    ensures IsLeast(e, slots, m) <==>
      && m in slots
      && (forall j :: j in slots ==> Current(e, slots[m]) <= Current(e, slots[j]))
      && forall j :: j in slots && Current(e, slots[j]) == Current(e, slots[m]) && j != m ==> Less(m, j)
  {
    hide Less, Current;
    if IsLeast(e, slots, m) {
      forall j | j in slots
        ensures Current(e, slots[m]) <= Current(e, slots[j])
      {
        if j != m {
          assert Before(Current(e, slots[m]), m, Current(e, slots[j]), j);
        }
      }
      forall j | j in slots && Current(e, slots[j]) == Current(e, slots[m]) && j != m
        ensures Less(m, j)
      {
        assert Before(Current(e, slots[m]), m, Current(e, slots[j]), j);
      }
    }
  }

  /** Exactly when the evicted key is the least one, with no hypothesis on the estimator:
      its stale cached value must not put it behind the level of another key. */
  lemma {:induction false} EvictsLeastExactly(e: Estimator, slots: Slots, m: Key)
    requires IsLeast(e, slots, m)
    ensures IsVictim(e, slots, m) <==>
      forall j :: j in slots && j != m ==> Before(slots[m].cached, m, Level(e, slots[j]), j)
  {
    forall j | j in slots && j != m
      ensures Before(Level(e, slots[m]), m, Level(e, slots[j]), j) <==> Before(slots[m].cached, m, Level(e, slots[j]), j)
    {
      var cm, cj, lj := Current(e, slots[m]), Current(e, slots[j]), Level(e, slots[j]);
      assert Before(cm, m, cj, j);
      assert cj <= lj;
      assert Before(cm, m, lj, j);
    }
  }

  /** The least key goes whenever no cached value lies above the current estimate. */
  lemma {:induction false} CurrentCachesEvictLeast(e: Estimator, slots: Slots, m: Key)
    requires forall k :: k in slots ==> slots[k].cached <= Current(e, slots[k])
    ensures IsVictim(e, slots, m) <==> IsLeast(e, slots, m)
  {
    assert forall k :: k in slots ==> Level(e, slots[k]) == Current(e, slots[k]);
  }

  /** A cached value can lie above the estimate only for a key whose sketch went dense
      or decreased when dense, and that was not refreshed since. */
  lemma {:induction false} OnlyDenseCachesMislead(e: Estimator, slot: Slot)
    requires CacheOk(e, slot) && Current(e, slot) < slot.cached
    ensures slot.dirty && SparseLimit(e.precision) < |slot.hashes|
  {
    hide SparseLimit;
    var s :| s <= slot.hashes && slot.cached == e.Cardinality(s);
    SmallerSet(s, slot.hashes);
  }

  /** With an estimate that never decreases, the least key always goes. */
  lemma {:induction false} MonotoneEvictsLeast(e: Estimator, slots: Slots, m: Key)
    requires CachesOk(e, slots) && e.Monotone()
    ensures IsVictim(e, slots, m) <==> IsLeast(e, slots, m)
  {
    hide IsVictim, IsLeast;
    forall k | k in slots
      ensures slots[k].cached <= Current(e, slots[k])
    {
      assert CacheOk(e, slots[k]);
      var s :| s <= slots[k].hashes && slots[k].cached == e.Cardinality(s);
    }
    CurrentCachesEvictLeast(e, slots, m);
  }

  /** The estimate never decreases exactly when the dense one does not and never falls
      below the sparse limit: switching from exact counts must not lose any. */
  lemma {:induction false} MonotoneExactly(e: Estimator)
    ensures e.Monotone() <==>
      && (forall s: set<nat>, t: set<nat> ::
            s <= t && AreHashes(t) && SparseLimit(e.precision) < |s| ==> e.Dense(s) <= e.Dense(t))
      && (forall t: set<nat> ::
            AreHashes(t) && SparseLimit(e.precision) < |t| ==> SparseLimit(e.precision) as real <= e.Dense(t))
  {
    hide SparseLimit, e.Dense;
    var limit := SparseLimit(e.precision);
    if e.Monotone() {
      forall s: set<nat>, t: set<nat> | s <= t && AreHashes(t) && limit < |s|
        ensures e.Dense(s) <= e.Dense(t)
      {
        SmallerSet(s, t);
        assert e.Cardinality(s) <= e.Cardinality(t);
      }
      forall t: set<nat> | AreHashes(t) && limit < |t|
        ensures limit as real <= e.Dense(t)
      {
        var s := Part(t, limit);
        assert e.Cardinality(s) <= e.Cardinality(t);
      }
    }
    if && (forall s: set<nat>, t: set<nat> :: s <= t && AreHashes(t) && limit < |s| ==> e.Dense(s) <= e.Dense(t))
       && (forall t: set<nat> :: AreHashes(t) && limit < |t| ==> limit as real <= e.Dense(t)) {
      forall s: set<nat>, t: set<nat> | s <= t && AreHashes(t)
        ensures e.Cardinality(s) <= e.Cardinality(t)
      {
        SmallerSet(s, t);
      }
    }
  }

  lemma {:induction false} Part(t: set<nat>, n: nat) returns (s: set<nat>)
    requires n <= |t|
    ensures s <= t && |s| == n
    decreases |t|
  {
    if n == |t| {
      s := t;
    } else {
      var h :| h in t;
      assert |t - {h}| == |t| - 1;
      s := Part(t - {h}, n);
    }
  }

  // --- a lazy eviction, step by step ---

  function Refreshed(e: Estimator, slot: Slot): Slot {
    Slot(slot.hashes, Current(e, slot), false)
  }

  /** A slot that stays: refreshed when it was dirty and cached ahead of the victim. */
  function AfterEviction(e: Estimator, slots: Slots, victim: Key, k: Key): Slot
    requires victim in slots && k in slots
  {
    if slots[k].dirty && Before(slots[k].cached, k, Level(e, slots[victim]), victim) then Refreshed(e, slots[k]) else slots[k]
  }

  /** `after` is `before` without the victim, and with what the search for it refreshed. */
  ghost predicate Evicted(e: Estimator, before: Slots, victim: Key, after: Slots) {
    && IsVictim(e, before, victim)
    && after.Keys == before.Keys - {victim}
    && forall k :: k in after ==> after[k] == AfterEviction(e, before, victim, k)
  }

  /** Slots before and after some of the dirty ones were refreshed. Every refreshed key
      was the head of the heap, so it precedes the level of every other key. */
  ghost predicate PartlyRefreshed(e: Estimator, start: Slots, now: Slots) {
    && now.Keys == start.Keys
    && (forall k :: k in start ==> now[k] == start[k] || (start[k].dirty && now[k] == Refreshed(e, start[k])))
    && (forall k, j :: k in start && now[k] != start[k] && j in start && j != k ==>
          Before(start[k].cached, k, Level(e, start[j]), j))
    && (forall k, j :: k in start && now[k] != start[k] && j in start && now[j] == start[j] ==>
          Before(start[k].cached, k, start[j].cached, j))
  }

  ghost predicate IsHead(slots: Slots, key: Key) {
    key in slots && forall j :: j in slots && j != key ==> Before(slots[key].cached, key, slots[j].cached, j)
  }

  lemma {:induction false} AtMostLevel(e: Estimator, start: Slots, now: Slots, k: Key, key: Key, c: real)
    requires PartlyRefreshed(e, start, now) && k in start && Before(c, key, now[k].cached, k)
    ensures Before(c, key, Level(e, start[k]), k)
  {
  }

  lemma {:induction false} RefreshHead(e: Estimator, start: Slots, now: Slots, key: Key)
    requires PartlyRefreshed(e, start, now) && IsHead(now, key) && now[key].dirty
    ensures PartlyRefreshed(e, start, now[key := Refreshed(e, now[key])])
  {
    hide Level, Less, Current;
    var next := now[key := Refreshed(e, now[key])];
    assert now[key] == start[key];
    forall k, j | k in start && next[k] != start[k] && j in start && j != k
      ensures Before(start[k].cached, k, Level(e, start[j]), j)
    {
      if k == key {
        AtMostLevel(e, start, now, j, key, now[key].cached);
      } else {
        assert now[k] != start[k];
      }
    }
    forall k, j | k in start && next[k] != start[k] && j in start && next[j] == start[j]
      ensures Before(start[k].cached, k, start[j].cached, j)
    {
      if k != key {
        assert now[k] != start[k];
      }
    }
  }

  /** A clean head is the victim of the eviction as a whole. */
  lemma {:induction false} CleanHeadIsVictim(e: Estimator, start: Slots, now: Slots, key: Key)
    requires PartlyRefreshed(e, start, now) && CachesOk(e, start) && IsHead(now, key) && !now[key].dirty
    ensures IsVictim(e, start, key)
  {
    hide Less;
    assert CacheOk(e, start[key]);
    assert now[key].cached == Current(e, start[key]);
    forall j | j in start && j != key
      ensures Before(Level(e, start[key]), key, Level(e, start[j]), j)
    {
      AtMostLevel(e, start, now, j, key, now[key].cached);
    }
  }

  /** When a clean head is reached, exactly the dirty slots cached ahead of its level were refreshed. */
  lemma {:induction false} RefreshedAhead(e: Estimator, start: Slots, now: Slots, key: Key, k: Key)
    requires PartlyRefreshed(e, start, now) && CachesOk(e, start) && IsHead(now, key) && !now[key].dirty
    requires k in start && k != key
    ensures key in start && now[k] == AfterEviction(e, start, key, k)
  {
    hide Less;
    assert CacheOk(e, start[key]);
    assert now[key].cached == Current(e, start[key]);
    if now[k] == start[k] {
      assert Before(now[key].cached, key, start[k].cached, k);
      if now[key] != start[key] {
        assert Before(start[key].cached, key, start[k].cached, k);
      }
      assert Before(Level(e, start[key]), key, start[k].cached, k);
      BeforeIsOrder(start[k].cached, k, Level(e, start[key]), key, 0.0, []);
    }
  }

  ghost function DirtyKeys(slots: Slots): set<Key> {
    set k | k in slots && slots[k].dirty
  }

  lemma {:induction false} SlotHashes(e: Estimator, slots: Slots, key: Key)
    requires CachesOk(e, slots) && key in slots
    ensures AreHashes(slots[key].hashes)
  {
    assert CacheOk(e, slots[key]);
  }

  lemma {:induction false} FewerDirty(slots: Slots, key: Key, clean: Slot)
    requires key in slots && slots[key].dirty && !clean.dirty
    ensures |DirtyKeys(slots[key := clean])| < |DirtyKeys(slots)|
  {
    assert DirtyKeys(slots[key := clean]) == DirtyKeys(slots) - {key};
  }

  lemma {:induction false} RefreshedOk(e: Estimator, slot: Slot)
    requires AreHashes(slot.hashes)
    ensures CacheOk(e, Refreshed(e, slot))
  {
  }

  lemma {:induction false} MirrorReplace(eviction: multiset<Candidate>, slots: Slots, key: Key, slot: Slot)
    requires Mirrors(eviction, slots) && key in slots
    ensures eviction[Candidate(slots[key].cached, key)] == 1
    ensures Mirrors(eviction - multiset{Candidate(slots[key].cached, key)} + multiset{Candidate(slot.cached, key)},
                    slots[key := slot])
    ensures Mirrors(eviction - multiset{Candidate(slots[key].cached, key)}, slots - {key})
  {
    var stale := Candidate(slots[key].cached, key);
    assert eviction[stale] == 1;
    var less := eviction - multiset{stale};
    forall c: Candidate
      ensures less[c] == if c.key in slots - {key} && (slots - {key})[c.key].cached == c.cardinality then 1 else 0
    {
      assert less[c] == if c == stale then eviction[c] - 1 else eviction[c];
      if c.key == key && c != stale {
        assert c.cardinality != stale.cardinality;
      }
    }
    MirrorAdd(less, slots - {key}, key, slot);
    assert (slots - {key})[key := slot] == slots[key := slot];
  }

  lemma {:induction false} MirrorAdd(eviction: multiset<Candidate>, slots: Slots, key: Key, slot: Slot)
    requires Mirrors(eviction, slots) && key !in slots
    ensures Mirrors(eviction + multiset{Candidate(slot.cached, key)}, slots[key := slot])
  {
    var added := Candidate(slot.cached, key);
    var more, after := eviction + multiset{added}, slots[key := slot];
    forall c: Candidate
      ensures more[c] == if c.key in after && after[c.key].cached == c.cardinality then 1 else 0
    {
      assert more[c] == eviction[c] + if c == added then 1 else 0;
      if c.key == key {
        assert eviction[c] == 0;
        assert c == added <==> c.cardinality == slot.cached;
      }
    }
  }

  /** Marking a slot dirty leaves its cached value, so the heap still mirrors the slots. */
  lemma {:induction false} MirrorKeeps(eviction: multiset<Candidate>, slots: Slots, key: Key, slot: Slot)
    requires Mirrors(eviction, slots) && key in slots && slot.cached == slots[key].cached
    ensures Mirrors(eviction, slots[key := slot])
  {
  }

  lemma {:induction false} LeastCandidateIsHead(eviction: multiset<Candidate>, slots: Slots, c: Candidate)
    requires Mirrors(eviction, slots) && c in eviction
    requires forall d :: d in eviction && d != c ==> Before(c.cardinality, c.key, d.cardinality, d.key)
    ensures IsHead(slots, c.key) && slots[c.key].cached == c.cardinality
  {
    assert eviction[c] == 1;
    forall j | j in slots && j != c.key
      ensures Before(slots[c.key].cached, c.key, slots[j].cached, j)
    {
      var d := Candidate(slots[j].cached, j);
      assert eviction[d] == 1 && d in eviction;
    }
  }

  lemma {:induction false} HeapNotEmpty(eviction: multiset<Candidate>, slots: Slots)
    requires Mirrors(eviction, slots) && slots != map[]
    ensures eviction != multiset{}
  {
    var k :| k in slots;
    assert eviction[Candidate(slots[k].cached, k)] == 1;
  }

  // --- whole operations ---

  ghost function Hashes(slots: Slots, key: Key): set<nat> {
    if key in slots then slots[key].hashes else {}
  }

  function Fresh(hash: nat): Slot {
    Slot({hash}, 1.0, false)
  }

  /** Recording one item under `key`, making room first when the map is full. */
  ghost predicate Inserted(e: Estimator, maxKeys: nat, before: Slots, key: Key, hash: nat, after: Slots) {
    if !IsHash(hash) then false
    else if key in before then after == before[key := Slot(before[key].hashes + {hash}, before[key].cached, true)]
    else if |before| < maxKeys then after == before[key := Fresh(hash)]
    else exists victim, rest :: Evicted(e, before, victim, rest) && after == rest[key := Fresh(hash)]
  }

  /** Every dropped key comes before every kept one by (cardinality, key). */
  ghost predicate DropsLeast(e: Estimator, all: Slots, kept: Slots) {
    && kept.Keys <= all.Keys
    && (forall k :: k in kept ==> kept[k].hashes == all[k].hashes)
    && forall d, k :: d in all && d !in kept && k in kept ==> Before(Current(e, all[d]), d, Current(e, all[k]), k)
  }

  /** `all` tracks the keys of both sides with the union of their hashes. */
  ghost predicate IsUnion(ours: Slots, theirs: Slots, all: Slots) {
    && all.Keys == ours.Keys + theirs.Keys
    && forall k :: k in all ==> Hashes(all, k) == Hashes(ours, k) + Hashes(theirs, k)
  }

  /** The union of both sides, cut down to the bound by dropping the least keys. */
  ghost predicate Merged(e: Estimator, maxKeys: nat, ours: Slots, theirs: Slots, after: Slots) {
    exists all :: IsUnion(ours, theirs, all) && DropsLeast(e, all, after) && |after| == Bounded(|all|, maxKeys)
  }

  function Bounded(n: nat, bound: nat): nat {
    if n < bound then n else bound
  }

  ghost predicate AllClean(e: Estimator, slots: Slots) {
    forall k :: k in slots ==> !slots[k].dirty && slots[k].cached == Current(e, slots[k])
  }

  /** Recording an item has one result. */
  lemma {:induction false} InsertedUnique(e: Estimator, maxKeys: nat, before: Slots, key: Key, hash: nat, a: Slots, b: Slots)
    requires Inserted(e, maxKeys, before, key, hash, a) && Inserted(e, maxKeys, before, key, hash, b)
    ensures a == b
  {
    hide IsVictim, AfterEviction;
    if key !in before && maxKeys <= |before| {
      var m, ra :| Evicted(e, before, m, ra) && a == ra[key := Fresh(hash)];
      var n, rb :| Evicted(e, before, n, rb) && b == rb[key := Fresh(hash)];
      VictimUnique(e, before, m, n);
      assert ra == rb;
    }
  }

  lemma {:induction false} FreshOk(e: Estimator, hash: nat)
    requires IsHash(hash)
    ensures CacheOk(e, Fresh(hash))
  {
    assert {hash} <= Fresh(hash).hashes && |{hash}| == 1;
    assert e.Cardinality({hash}) == 1.0;
  }

  lemma {:induction false} MoreHashesOk(e: Estimator, slot: Slot, more: set<nat>)
    requires CacheOk(e, slot) && AreHashes(more)
    ensures CacheOk(e, Slot(slot.hashes + more, slot.cached, true))
  {
    var s :| s <= slot.hashes && slot.cached == e.Cardinality(s);
    assert s <= slot.hashes + more;
  }

  lemma {:induction false} PutOk(e: Estimator, slots: Slots, key: Key, slot: Slot)
    requires CachesOk(e, slots) && CacheOk(e, slot)
    ensures CachesOk(e, slots[key := slot])
  {
    hide CacheOk;
  }

  lemma {:induction false} DropOk(e: Estimator, slots: Slots, key: Key)
    requires CachesOk(e, slots) && key in slots
    ensures CachesOk(e, slots - {key}) && |slots - {key}| == |slots| - 1
  {
    hide CacheOk;
    assert (slots - {key}).Keys == slots.Keys - {key} && |slots| == |slots.Keys|;
  }

  /** With every slot clean, one more eviction drops the least key left. */
  lemma {:induction false} DropOneMore(e: Estimator, all: Slots, kept: Slots, victim: Key, rest: Slots)
    requires DropsLeast(e, all, kept) && AllClean(e, kept) && Evicted(e, kept, victim, rest)
    ensures DropsLeast(e, all, rest) && AllClean(e, rest)
  {
    hide Less;
    forall d, k | d in all && d !in rest && k in rest
      ensures Before(Current(e, all[d]), d, Current(e, all[k]), k)
    {
      if d == victim {
        assert Before(Level(e, kept[d]), d, Level(e, kept[k]), k);
      }
    }
  }

  /** A trim by `DropsLeast` is a function of the contents: two results of the same size agree. */
  lemma {:induction false} DropsLeastUnique(e: Estimator, all: Slots, a: Slots, b: Slots)
    requires DropsLeast(e, all, a) && DropsLeast(e, all, b) && |a| == |b|
    ensures a.Keys == b.Keys
  {
    hide Before;
    if a.Keys != b.Keys {
      var x := OnlyIn(a.Keys, b.Keys);
      var y := OnlyIn(b.Keys, a.Keys);
      BeforeIsOrder(Current(e, all[x]), x, Current(e, all[y]), y, 0.0, []);
      assert false;
    }
  }

  lemma {:induction false} OnlyIn(a: set<Key>, b: set<Key>) returns (x: Key)
    requires a != b && |a| == |b|
    ensures x in a && x !in b
  {
    if a <= b {
      SameSizeSubset(a, b);
      assert false;
    }
    x :| x in a && x !in b;
  }
}

/** The sketch object. */
module HllMaps {
  import opened HashSpecs
  import opened HllMapSpec
  import opened HllSpec
  import opened KeyOrder

  /** The head of the reverse-ordered heap. */
  method PopLeast(heap: multiset<Candidate>) returns (c: Candidate)
    requires heap != multiset{}
    ensures c in heap
    ensures forall d :: d in heap && d != c ==> Before(c.cardinality, c.key, d.cardinality, d.key)
  {
    hide Less, Before;
    c :| c in heap;
    var rest := heap - multiset{c};
    while rest != multiset{}
      invariant c in heap && rest <= heap
      invariant forall d :: d in heap && d != c && rest[d] == 0 ==> Before(c.cardinality, c.key, d.cardinality, d.key)
      decreases |rest|
    {
      var d :| d in rest;
      var next := if Before(d.cardinality, d.key, c.cardinality, c.key) then d else c;
      CandidateOrder(c, d);
      forall x | x in heap && x != next && (rest - multiset{d})[x] == 0
        ensures Before(next.cardinality, next.key, x.cardinality, x.key)
      {
        CandidateOrder(c, x);
        BeforeIsOrder(d.cardinality, d.key, c.cardinality, c.key, x.cardinality, x.key);
      }
      rest := rest - multiset{d};
      c := next;
    }
  }

  lemma {:induction false} CandidateOrder(c: Candidate, d: Candidate)
    ensures c != d ==> Before(c.cardinality, c.key, d.cardinality, d.key) || Before(d.cardinality, d.key, c.cardinality, c.key)
  {
    BeforeIsOrder(c.cardinality, c.key, d.cardinality, d.key, 0.0, []);
  }

  class HllMap {
    const maxKeys: nat
    const hashSpec: HashSpec
    const estimator: Estimator
    var slots: Slots
    var eviction: multiset<Candidate>
    var evictedKeys: nat
    var updates: nat

    ghost predicate Valid()
      reads this
    {
      0 < maxKeys && |slots| <= maxKeys && Tidy()
    }

    /** Valid but for the bound on keys. */
    ghost predicate Tidy()
      reads this
    {
      Mirrors(eviction, slots) && CachesOk(estimator, slots)
    }

    constructor (maxKeys: nat, hashSpec: HashSpec, estimator: Estimator)
      requires 0 < maxKeys
      ensures Valid() && slots == map[] && evictedKeys == 0 && updates == 0
      ensures this.maxKeys == maxKeys && this.hashSpec == hashSpec && this.estimator == estimator
    {
      this.maxKeys, this.hashSpec, this.estimator := maxKeys, hashSpec, estimator;
      slots, eviction, evictedKeys, updates := map[], multiset{}, 0, 0;
    }

    /** Pop and refresh until a clean head is reached, then drop that key. */
    method EvictSmallest() returns (ghost victim: Key)
      requires Tidy() && slots != map[]
      modifies this
      ensures Tidy() && Evicted(estimator, old(slots), victim, slots)
      ensures evictedKeys == old(evictedKeys) + 1 && updates == old(updates) && |slots| == old(|slots|) - 1
    {
      hide Mirrors, IsHead, PartlyRefreshed, IsVictim, CacheOk, Before;
      ghost var start := slots;
      StartRefresh(estimator, start);
      while true
        invariant Tidy() && slots != map[] && PartlyRefreshed(estimator, start, slots)
        invariant evictedKeys == old(evictedKeys) && updates == old(updates)
        decreases |DirtyKeys(slots)|
      {
        HeapNotEmpty(eviction, slots);
        var candidate := PopLeast(eviction);
        LeastCandidateIsHead(eviction, slots, candidate);
        HeadTracked(slots, candidate.key);
        var slot := slots[candidate.key];
        if slot.dirty || slot.cached != candidate.cardinality {
          var current := Slot(slot.hashes, estimator.Cardinality(slot.hashes), false);
          SlotHashes(estimator, slots, candidate.key);
          RefreshHead(estimator, start, slots, candidate.key);
          RefreshedOk(estimator, slot);
          PutOk(estimator, slots, candidate.key, current);
          FewerDirty(slots, candidate.key, current);
          MirrorReplace(eviction, slots, candidate.key, current);
          eviction := eviction - multiset{candidate} + multiset{Candidate(current.cached, candidate.key)};
          slots := slots[candidate.key := current];
        } else {
          victim := candidate.key;
          MirrorReplace(eviction, slots, victim, slot);
          DropOk(estimator, slots, victim);
          RefreshedRest(estimator, start, slots, victim);
          eviction := eviction - multiset{candidate};
          slots := slots - {candidate.key};
          evictedKeys := evictedKeys + 1;
          return;
        }
      }
    }

    /** Record that `key` saw the item with this hash. */
    method Insert(key: Key, hash: nat)
      requires Valid() && IsHash(hash)
      modifies this
      ensures Valid() && updates == old(updates) + 1
      ensures Inserted(estimator, maxKeys, old(slots), key, hash, slots)
      ensures evictedKeys == old(evictedKeys) + (if key !in old(slots) && old(|slots|) == maxKeys then 1 else 0)
    {
      hide Mirrors, CacheOk, IsVictim, Refreshed;
      updates := updates + 1;
      if key in slots {
        var slot := Slot(slots[key].hashes + {hash}, slots[key].cached, true);
        MirrorKeeps(eviction, slots, key, slot);
        assert CacheOk(estimator, slots[key]);
        MoreHashesOk(estimator, slots[key], {hash});
        PutOk(estimator, slots, key, slot);
        SizeAfterPut(slots, key, slot);
        slots := slots[key := slot];
        return;
      }
      if |slots| >= maxKeys {
        var victim := EvictSmallest();
      }
      var slot := Fresh(hash);
      MirrorAdd(eviction, slots, key, slot);
      FreshOk(estimator, hash);
      PutOk(estimator, slots, key, slot);
      SizeAfterPut(slots, key, slot);
      eviction := eviction + multiset{Candidate(slot.cached, key)};
      slots := slots[key := slot];
    }

    /** Refresh every cached value and list every key in the heap. */
    method RebuildEvictionHeap()
      requires HoldHashes(slots)
      modifies this`slots, this`eviction
      ensures Tidy() && AllClean(estimator, slots) && slots.Keys == old(slots.Keys)
      ensures forall k :: k in slots ==> slots[k].hashes == old(slots)[k].hashes
    {
      hide Mirrors, CacheOk, Before, AreHashes;
      var done: Slots := map[];
      eviction := multiset{};
      NothingMirrors();
      var rest := slots.Keys;
      while rest != {}
        invariant rest <= slots.Keys && done.Keys == slots.Keys - rest && slots == old(slots)
        invariant Mirrors(eviction, done) && CachesOk(estimator, done) && AllClean(estimator, done)
        invariant forall k :: k in done ==> done[k].hashes == slots[k].hashes
        decreases |rest|
      {
        var key :| key in rest;
        var slot := Slot(slots[key].hashes, estimator.Cardinality(slots[key].hashes), false);
        MirrorAdd(eviction, done, key, slot);
        assert AreHashes(slots[key].hashes);
        RefreshedOk(estimator, slots[key]);
        PutOk(estimator, done, key, slot);
        eviction := eviction + multiset{Candidate(slot.cached, key)};
        done := done[key := slot];
        rest := rest - {key};
      }
      slots := done;
    }

    /** Union key by key, then drop the least keys until the bound holds again. */
    method MergeFrom(other: HllMap) returns (ok: bool)
      requires Valid() && other.Valid() && other != this
      requires other.hashSpec == hashSpec && other.estimator.precision == estimator.precision
        ==> other.estimator.dense == estimator.dense
      modifies this
      ensures Valid()
      ensures ok <==> other.maxKeys == maxKeys && other.estimator.precision == estimator.precision && other.hashSpec == hashSpec
      ensures ok ==> Merged(estimator, maxKeys, old(slots), other.slots, slots)
      ensures ok ==> evictedKeys == old(evictedKeys) + other.evictedKeys + |old(slots.Keys) + other.slots.Keys| - |slots|
      ensures !ok ==> slots == old(slots) && evictedKeys == old(evictedKeys)
      ensures updates == old(updates) + (if ok then other.updates else 0)
    {
      hide Mirrors, CacheOk, Before, Evicted, DropsLeast, AllClean;
      ok := other.maxKeys == maxKeys && other.estimator.precision == estimator.precision && other.hashSpec == hashSpec;
      if !ok {
        return;
      }
      AddAll(other.slots);
      ghost var joined := slots;
      UnionHolds(estimator, other.estimator, old(slots), other.slots, joined);
      RebuildEvictionHeap();
      ghost var all := slots;
      Trim();
      evictedKeys, updates := evictedKeys + other.evictedKeys, updates + other.updates;
      UnionSame(old(slots), other.slots, joined, all);
    }

    /** Evict until the bound holds again. */
    method Trim()
      requires 0 < maxKeys && Tidy() && AllClean(estimator, slots)
      modifies this
      ensures Valid() && DropsLeast(estimator, old(slots), slots) && |slots| == Bounded(|old(slots)|, maxKeys)
      ensures evictedKeys == old(evictedKeys) + |old(slots)| - |slots| && updates == old(updates)
    {
      hide Mirrors, CacheOk, Before, Evicted, DropsLeast, AllClean;
      NothingDropped(estimator, slots);
      while |slots| > maxKeys
        invariant Tidy() && AllClean(estimator, slots) && DropsLeast(estimator, old(slots), slots)
        invariant |slots| >= maxKeys || slots == old(slots)
        invariant evictedKeys == old(evictedKeys) + |old(slots)| - |slots| && updates == old(updates)
        decreases |slots|
      {
        ghost var before := slots;
        var victim := EvictSmallest();
        DropOneMore(estimator, old(slots), before, victim, slots);
      }
    }

    method AddAll(theirs: Slots)
      modifies this`slots
      ensures IsUnion(old(slots), theirs, slots)
    {
      hide PartUnion;
      var rest := theirs.Keys;
      StartUnion(slots, theirs);
      while rest != {}
        invariant rest <= theirs.Keys && PartUnion(old(slots), theirs, rest, slots)
        decreases |rest|
      {
        var key :| key in rest;
        UnionStep(old(slots), theirs, rest, slots, key);
        if key in slots {
          slots := slots[key := Slot(slots[key].hashes + theirs[key].hashes, slots[key].cached, true)];
        } else {
          slots := slots[key := theirs[key]];
        }
        rest := rest - {key};
      }
      EndUnion(old(slots), theirs, slots);
    }
  }

  /** All of their keys but `rest` have been added. */
  ghost predicate PartUnion(ours: Slots, theirs: Slots, rest: set<Key>, now: Slots) {
    && now.Keys == ours.Keys + (theirs.Keys - rest)
    && forall k :: k in now ==> Hashes(now, k) == Hashes(ours, k) + (if k in rest then {} else Hashes(theirs, k))
  }

  lemma {:induction false} StartUnion(ours: Slots, theirs: Slots)
    ensures PartUnion(ours, theirs, theirs.Keys, ours)
  {
  }

  lemma {:induction false} EndUnion(ours: Slots, theirs: Slots, now: Slots)
    requires PartUnion(ours, theirs, {}, now)
    ensures IsUnion(ours, theirs, now)
  {
  }

  lemma {:induction false} UnionStep(ours: Slots, theirs: Slots, rest: set<Key>, now: Slots, key: Key)
    requires PartUnion(ours, theirs, rest, now) && key in rest && key in theirs
    ensures key in now ==>
      PartUnion(ours, theirs, rest - {key}, now[key := Slot(now[key].hashes + theirs[key].hashes, now[key].cached, true)])
    ensures key !in now ==> PartUnion(ours, theirs, rest - {key}, now[key := theirs[key]])
  {
    var next := if key in now
      then now[key := Slot(now[key].hashes + theirs[key].hashes, now[key].cached, true)]
      else now[key := theirs[key]];
    assert next.Keys == ours.Keys + (theirs.Keys - (rest - {key}));
    forall k | k in next
      ensures Hashes(next, k) == Hashes(ours, k) + (if k in rest - {key} then {} else Hashes(theirs, k))
    {
      if k != key {
        assert k in now && Hashes(next, k) == Hashes(now, k);
      }
    }
  }

  lemma {:induction false} UnionSame(ours: Slots, theirs: Slots, joined: Slots, all: Slots)
    requires IsUnion(ours, theirs, joined) && all.Keys == joined.Keys
    requires forall k :: k in all ==> all[k].hashes == joined[k].hashes
    ensures IsUnion(ours, theirs, all)
  {
  }

  lemma {:induction false} UnionHolds(e: Estimator, f: Estimator, ours: Slots, theirs: Slots, all: Slots)
    requires IsUnion(ours, theirs, all) && CachesOk(e, ours) && CachesOk(f, theirs)
    ensures HoldHashes(all)
  {
    hide AreHashes;
    forall k | k in all
      ensures AreHashes(all[k].hashes)
    {
      assert k in ours ==> CacheOk(e, ours[k]);
      assert k in theirs ==> CacheOk(f, theirs[k]);
      UnionOfHashes(Hashes(ours, k), Hashes(theirs, k));
      assert Hashes(all, k) == Hashes(ours, k) + Hashes(theirs, k);
    }
  }

  lemma {:induction false} UnionOfHashes(s: set<nat>, t: set<nat>)
    ensures AreHashes(s) && AreHashes(t) ==> AreHashes(s + t)
    ensures AreHashes({})
  {
  }

  lemma {:induction false} NothingDropped(e: Estimator, all: Slots)
    ensures DropsLeast(e, all, all)
  {
  }

  lemma {:induction false} NothingMirrors()
    ensures Mirrors(multiset{}, map[])
  {
  }

  lemma {:induction false} StartRefresh(e: Estimator, start: Slots)
    ensures PartlyRefreshed(e, start, start)
  {
  }

  lemma {:induction false} HeadTracked(slots: Slots, key: Key)
    requires IsHead(slots, key)
    ensures key in slots
  {
  }

  lemma {:induction false} RefreshedRest(e: Estimator, start: Slots, now: Slots, victim: Key)
    requires PartlyRefreshed(e, start, now) && CachesOk(e, start) && IsHead(now, victim) && !now[victim].dirty
    ensures Evicted(e, start, victim, now - {victim}) && |now| == |start|
  {
    hide AfterEviction, IsVictim;
    CleanHeadIsVictim(e, start, now, victim);
    forall k | k in now - {victim}
      ensures now[k] == AfterEviction(e, start, victim, k)
    {
      RefreshedAhead(e, start, now, victim, k);
    }
    assert |now.Keys| == |now| && |start.Keys| == |start|;
  }

  lemma {:induction false} SizeAfterPut(slots: Slots, key: Key, slot: Slot)
    ensures |slots[key := slot]| == |slots| + if key in slots then 0 else 1
  {
    assert slots[key := slot].Keys == slots.Keys + {key};
    assert |slots| == |slots.Keys| && |slots[key := slot]| == |slots[key := slot].Keys|;
    assert key in slots ==> slots.Keys + {key} == slots.Keys;
  }
}
