/** Whole runs of a keyed cardinality map: it evicts the least key in every run exactly
    when the estimate never decreases, and the improved raw estimator of Ertl does. */
module HllMapRuns {
  import opened Arithmetic
  import opened FiniteSets
  import opened HllMapSpec
  import opened HllSpec
  import opened KeyOrder

  datatype Item = Item(key: Key, hash: nat)

  /** `slots` is what inserting `items` one by one into an empty map leaves. */
  ghost predicate Reaches(e: Estimator, maxKeys: nat, items: seq<Item>, slots: Slots) {
    if items == [] then slots == map[]
    else
      var init, last := items[..|items| - 1], items[|items| - 1];
      exists before :: Reaches(e, maxKeys, init, before) && Inserted(e, maxKeys, before, last.key, last.hash, slots)
  }

  /** Whatever the run, a key that has to go is the least one. */
  ghost predicate AlwaysEvictsLeast(e: Estimator) {
    forall maxKeys: nat, items, slots, m ::
      Reaches(e, maxKeys, items, slots) && |slots| == maxKeys && IsVictim(e, slots, m) ==> IsLeast(e, slots, m)
  }

  lemma {:induction false} ReachesNext(e: Estimator, maxKeys: nat, items: seq<Item>, before: Slots, key: Key, hash: nat,
                                       slots: Slots)
    requires Reaches(e, maxKeys, items, before) && Inserted(e, maxKeys, before, key, hash, slots)
    ensures Reaches(e, maxKeys, items + [Item(key, hash)], slots)
  {
    hide Inserted;
    assert (items + [Item(key, hash)])[..|items|] == items;
  }

  /** A run has one end. */
  lemma {:induction false} ReachesUnique(e: Estimator, maxKeys: nat, items: seq<Item>, a: Slots, b: Slots)
    requires Reaches(e, maxKeys, items, a) && Reaches(e, maxKeys, items, b)
    ensures a == b
  {
    hide Inserted;
    if items != [] {
      var init, last := items[..|items| - 1], items[|items| - 1];
      var x :| Reaches(e, maxKeys, init, x) && Inserted(e, maxKeys, x, last.key, last.hash, a);
      var y :| Reaches(e, maxKeys, init, y) && Inserted(e, maxKeys, y, last.key, last.hash, b);
      ReachesUnique(e, maxKeys, init, x, y);
      InsertedUnique(e, maxKeys, x, last.key, last.hash, a, b);
    }
  }

  // --- what holds along a run ---

  lemma {:induction false} EvictedOk(e: Estimator, before: Slots, victim: Key, after: Slots)
    requires CachesOk(e, before) && Evicted(e, before, victim, after)
    ensures CachesOk(e, after)
  {
    hide CacheOk, IsVictim, Before;
    forall k | k in after
      ensures CacheOk(e, after[k])
    {
      assert CacheOk(e, before[k]);
      SlotHashes(e, before, k);
      RefreshedOk(e, before[k]);
    }
  }

  lemma {:induction false} InsertedOk(e: Estimator, maxKeys: nat, before: Slots, key: Key, hash: nat, after: Slots)
    requires CachesOk(e, before) && Inserted(e, maxKeys, before, key, hash, after)
    ensures CachesOk(e, after)
  {
    hide CachesOk, CacheOk, Evicted;
    if key in before {
      SlotAt(e, before, key);
      MoreHashesOk(e, before[key], {hash});
      PutOk(e, before, key, Slot(before[key].hashes + {hash}, before[key].cached, true));
    } else {
      FreshOk(e, hash);
      if |before| < maxKeys {
        PutOk(e, before, key, Fresh(hash));
      } else {
        var victim, rest :| Evicted(e, before, victim, rest) && after == rest[key := Fresh(hash)];
        EvictedOk(e, before, victim, rest);
        PutOk(e, rest, key, Fresh(hash));
      }
    }
  }

  lemma {:induction false} SlotAt(e: Estimator, slots: Slots, key: Key)
    requires CachesOk(e, slots) && key in slots
    ensures CacheOk(e, slots[key])
  {
  }

  lemma {:induction false} ReachedOk(e: Estimator, maxKeys: nat, items: seq<Item>, slots: Slots)
    requires Reaches(e, maxKeys, items, slots)
    ensures CachesOk(e, slots)
  {
    hide CacheOk, Inserted;
    if items != [] {
      var init, last := items[..|items| - 1], items[|items| - 1];
      var before :| Reaches(e, maxKeys, init, before) && Inserted(e, maxKeys, before, last.key, last.hash, slots);
      ReachedOk(e, maxKeys, init, before);
      InsertedOk(e, maxKeys, before, last.key, last.hash, slots);
    }
  }

  // --- what the slots hold ---

  /** The hashes that these items record under a key. */
  ghost function HashesOf(items: seq<Item>, key: Key): set<nat> {
    if items == [] then {}
    else HashesOf(items[..|items| - 1], key) + if items[|items| - 1].key == key then {items[|items| - 1].hash} else {}
  }

  ghost function KeysOf(items: seq<Item>): set<Key> {
    if items == [] then {} else KeysOf(items[..|items| - 1]) + {items[|items| - 1].key}
  }

  /** What an insert does to the hashes, whoever is evicted. */
  lemma {:induction false} InsertedHashes(e: Estimator, maxKeys: nat, before: Slots, key: Key, hash: nat, after: Slots)
    requires Inserted(e, maxKeys, before, key, hash, after)
    ensures key in after && after[key].hashes == (if key in before then before[key].hashes + {hash} else {hash})
    ensures forall k :: k in after && k != key ==> k in before && after[k].hashes == before[k].hashes
    ensures key in before || |before| < maxKeys ==> after.Keys == before.Keys + {key}
  {
    hide Evicted;
    if key !in before && maxKeys <= |before| {
      var victim, rest :| Evicted(e, before, victim, rest) && after == rest[key := Fresh(hash)];
      EvictedHashes(e, before, victim, rest);
    }
  }

  lemma {:induction false} EvictedHashes(e: Estimator, before: Slots, victim: Key, after: Slots)
    requires Evicted(e, before, victim, after)
    ensures forall k :: k in after ==> k in before && after[k].hashes == before[k].hashes
  {
    hide IsVictim, Before;
  }

  /** A tracked key holds exactly the hashes recorded under it since some moment, the one at
      which it was last taken in. */
  lemma {:induction false} HoldsSince(e: Estimator, maxKeys: nat, items: seq<Item>, slots: Slots, key: Key) returns (from: nat)
    requires Reaches(e, maxKeys, items, slots) && key in slots
    ensures from < |items| && items[from].key == key && slots[key].hashes == HashesOf(items[from..], key)
  {
    hide Inserted;
    var init, last := items[..|items| - 1], items[|items| - 1];
    var before :| Reaches(e, maxKeys, init, before) && Inserted(e, maxKeys, before, last.key, last.hash, slots);
    InsertedHashes(e, maxKeys, before, last.key, last.hash, slots);
    if key in before {
      from := HoldsSince(e, maxKeys, init, before, key);
      assert items[from..][..|items[from..]| - 1] == init[from..];
    } else {
      from := |items| - 1;
      assert items[from..] == [last] && [last][..0] == [];
    }
  }

  /** While all keys fit nothing is evicted, and every key holds all its hashes. */
  lemma {:induction false} HoldsAll(e: Estimator, maxKeys: nat, items: seq<Item>, slots: Slots)
    requires Reaches(e, maxKeys, items, slots) && |KeysOf(items)| <= maxKeys
    ensures slots.Keys == KeysOf(items) && forall k :: k in slots ==> slots[k].hashes == HashesOf(items, k)
  {
    hide Inserted;
    if items != [] {
      var init, last := items[..|items| - 1], items[|items| - 1];
      var before :| Reaches(e, maxKeys, init, before) && Inserted(e, maxKeys, before, last.key, last.hash, slots);
      SmallerSet(KeysOf(init), KeysOf(items));
      HoldsAll(e, maxKeys, init, before);
      InsertedHashes(e, maxKeys, before, last.key, last.hash, slots);
      assert |before.Keys| == |before|;
      if last.key !in before {
        assert KeysOf(init) < KeysOf(items);
        NoHashesOf(init, last.key);
      }
    }
  }

  lemma {:induction false} NoHashesOf(items: seq<Item>, key: Key)
    requires key !in KeysOf(items)
    ensures HashesOf(items, key) == {}
  {
    if items != [] {
      NoHashesOf(items[..|items| - 1], key);
    }
  }

  // --- runs that go wrong ---

  /** More hashes under a tracked key leave its cached value behind. */
  lemma {:induction false} InsertMany(e: Estimator, maxKeys: nat, items: seq<Item>, slots: Slots, key: Key, more: set<nat>)
      returns (longer: seq<Item>, after: Slots)
    requires Reaches(e, maxKeys, items, slots) && key in slots && AreHashes(more) && more != {}
    ensures after == slots[key := Slot(slots[key].hashes + more, slots[key].cached, true)]
    ensures Reaches(e, maxKeys, longer, after)
    decreases |more|
  {
    hide Reaches, IsHash;
    var h :| h in more;
    assert IsHash(h);
    after := slots[key := Slot(slots[key].hashes + {h}, slots[key].cached, true)];
    longer := items + [Item(key, h)];
    ReachesNext(e, maxKeys, items, slots, key, h, after);
    var rest := more - {h};
    assert more == {h} + rest;
    assert slots[key].hashes + {h} + rest == slots[key].hashes + more;
    if rest == {} {
      assert slots[key].hashes + {h} == slots[key].hashes + more;
    } else {
      var next := after;
      longer, after := InsertMany(e, maxKeys, longer, next, key, rest);
      assert after == slots[key := Slot(slots[key].hashes + more, slots[key].cached, true)];
    }
  }

  lemma {:induction false} InsertFresh(e: Estimator, maxKeys: nat, items: seq<Item>, slots: Slots, key: Key, hash: nat)
      returns (longer: seq<Item>)
    requires Reaches(e, maxKeys, items, slots) && key !in slots && |slots| < maxKeys && IsHash(hash)
    ensures Reaches(e, maxKeys, longer, slots[key := Fresh(hash)])
  {
    longer := items + [Item(key, hash)];
    ReachesNext(e, maxKeys, items, slots, key, hash, slots[key := Fresh(hash)]);
  }

  const LOW: Key := [0]
  const MID: Key := [1]
  const HIGH: Key := [2]

  lemma {:induction false} KeysOrdered()
    ensures Less(LOW, MID) && Less(MID, HIGH) && !Less(MID, LOW) && !Less(HIGH, MID)
  {
  }

  /** The key cached above its estimate stays, and one with a larger estimate goes. */
  ghost predicate GoesWrong(e: Estimator, slots: Slots) {
    && slots.Keys == {LOW, MID} && |slots| == 2
    && IsVictim(e, slots, LOW) && !IsLeast(e, slots, LOW)
    && Current(e, slots[MID]) < Current(e, slots[LOW])
    && Current(e, slots[MID]) < slots[MID].cached
  }

  lemma {:induction false} StaleGoesWrong(e: Estimator, low: Slot, mid: Slot)
    requires Current(e, mid) < Current(e, low) <= mid.cached && low.cached <= mid.cached
    ensures GoesWrong(e, map[LOW := low, MID := mid])
  {
    hide Current;
    KeysOrdered();
    var slots: Slots := map[LOW := low, MID := mid];
    assert slots.Keys == {LOW, MID} && LOW != MID;
    assert |slots| == |{LOW, MID}|;
    assert Before(Level(e, low), LOW, Level(e, mid), MID);
    assert !Before(Current(e, low), LOW, Current(e, mid), MID);
  }

  lemma {:induction false} OneHash(e: Estimator, h: nat)
    ensures e.Cardinality({h}) == 1.0
  {
    hide SparseLimit;
  }

  /** Below one: the first cached value is already too large. */
  lemma {:induction false} DropBelowOne(e: Estimator, t: set<nat>, h: nat) returns (items: seq<Item>, slots: Slots)
    requires AreHashes(t) && h in t && e.Cardinality(t) < 1.0
    ensures Reaches(e, 2, items, slots) && GoesWrong(e, slots)
  {
    hide Reaches, e.Cardinality;
    OneHash(e, h);
    assert t != {h};
    var rest := t - {h};
    assert rest != {} && {h} + rest == t;
    NoItems(e);
    items := InsertFresh(e, 2, [], map[], MID, h);
    items, slots := InsertMany(e, 2, items, map[MID := Fresh(h)], MID, rest);
    items := InsertFresh(e, 2, items, slots, LOW, h);
    slots := slots[LOW := Fresh(h)];
    assert slots == map[LOW := Fresh(h), MID := Slot(t, 1.0, true)];
    StaleGoesWrong(e, Fresh(h), Slot(t, 1.0, true));
  }

  lemma {:induction false} NoItems(e: Estimator)
    ensures Reaches(e, 2, [], map[])
  {
  }

  /** An eviction that passes over the dirty `MID` and takes `HIGH` refreshes the former. */
  lemma {:induction false} RefreshingEviction(e: Estimator, s: set<nat>, h: nat)
    requires IsHash(h) && 1.0 < e.Cardinality(s)
    ensures var full: Slots := map[MID := Slot(s, 1.0, true), HIGH := Fresh(h)];
      Inserted(e, 2, full, LOW, h, map[MID := Slot(s, e.Cardinality(s), false), LOW := Fresh(h)])
  {
    hide e.Cardinality;
    OneHash(e, h);
    KeysOrdered();
    var full: Slots := map[MID := Slot(s, 1.0, true), HIGH := Fresh(h)];
    var rest: Slots := map[MID := Slot(s, e.Cardinality(s), false)];
    assert full.Keys == {MID, HIGH} && MID != HIGH && |full| == |{MID, HIGH}| == 2;
    assert Before(1.0, HIGH, e.Cardinality(s), MID);
    assert IsVictim(e, full, HIGH);
    assert Before(1.0, MID, 1.0, HIGH);
    assert rest.Keys == full.Keys - {HIGH};
    assert Evicted(e, full, HIGH, rest);
    assert LOW !in full;
    assert map[MID := Slot(s, e.Cardinality(s), false), LOW := Fresh(h)] == rest[LOW := Fresh(h)];
  }

  /** Above one: an eviction in between refreshes the cached value to what is lost later. */
  lemma {:induction false} RefreshedMid(e: Estimator, s: set<nat>, h: nat) returns (items: seq<Item>)
    requires AreHashes(s) && h in s && 1.0 < e.Cardinality(s)
    ensures Reaches(e, 2, items, map[MID := Slot(s, e.Cardinality(s), false), LOW := Fresh(h)])
  {
    hide Reaches, Inserted, e.Cardinality;
    OneHash(e, h);
    var rest := s - {h};
    assert {h} + rest == s && s != {h};
    NoItems(e);
    items := InsertFresh(e, 2, [], map[], MID, h);
    var slots;
    items, slots := InsertMany(e, 2, items, map[MID := Fresh(h)], MID, rest);
    assert slots == map[MID := Slot(s, 1.0, true)];
    items := InsertFresh(e, 2, items, slots, HIGH, h);
    assert slots[HIGH := Fresh(h)] == map[MID := Slot(s, 1.0, true), HIGH := Fresh(h)];
    RefreshingEviction(e, s, h);
    ReachesNext(e, 2, items, slots[HIGH := Fresh(h)], LOW, h, map[MID := Slot(s, e.Cardinality(s), false), LOW := Fresh(h)]);
    items := items + [Item(LOW, h)];
  }

  lemma {:induction false} DropAboveOne(e: Estimator, s: set<nat>, t: set<nat>, h: nat)
      returns (items: seq<Item>, slots: Slots)
    requires AreHashes(t) && s <= t && h in s
    requires 1.0 < e.Cardinality(s) && e.Cardinality(t) < e.Cardinality(s)
    ensures Reaches(e, 2, items, slots) && GoesWrong(e, slots)
  {
    hide Reaches, Inserted, e.Cardinality;
    OneHash(e, h);
    var rest, later := s - {h}, t - s;
    assert {h} + rest == s && s + later == t && s != {h} && s != t;
    items := RefreshedMid(e, s, h);
    slots := map[MID := Slot(s, e.Cardinality(s), false), LOW := Fresh(h)];
    items, slots := InsertMany(e, 2, items, slots, LOW, rest);
    items, slots := InsertMany(e, 2, items, slots, MID, later);
    assert slots == map[LOW := Slot(s, 1.0, true), MID := Slot(t, e.Cardinality(s), true)];
    StaleGoesWrong(e, Slot(s, 1.0, true), Slot(t, e.Cardinality(s), true));
  }

  lemma {:induction false} DropGoesWrong(e: Estimator, s: set<nat>, t: set<nat>) returns (items: seq<Item>, slots: Slots)
    requires AreHashes(t) && s <= t && e.Cardinality(t) < e.Cardinality(s)
    ensures Reaches(e, 2, items, slots) && GoesWrong(e, slots)
  {
    hide Reaches, GoesWrong, AreHashes;
    NoHashes(e);
    if s == {} {
      assert t != {};
      var h :| h in t;
      items, slots := DropBelowOne(e, t, h);
    } else {
      var h :| h in s;
      if e.Cardinality(t) < 1.0 {
        items, slots := DropBelowOne(e, t, h);
      } else {
        items, slots := DropAboveOne(e, s, t, h);
      }
    }
  }

  lemma {:induction false} NoHashes(e: Estimator)
    ensures e.Cardinality({}) == 0.0
  {
    hide SparseLimit;
  }

  /** The least key goes in every run exactly when the estimate never decreases. */
  lemma {:induction false} EvictsLeastExactlyWhenMonotone(e: Estimator)
    ensures AlwaysEvictsLeast(e) <==> e.Monotone()
  {
    hide Reaches, IsVictim, IsLeast, CachesOk, e.Cardinality;
    if e.Monotone() {
      forall maxKeys: nat, items, slots, m |
        Reaches(e, maxKeys, items, slots) && |slots| == maxKeys && IsVictim(e, slots, m)
        ensures IsLeast(e, slots, m)
      {
        ReachedOk(e, maxKeys, items, slots);
        MonotoneEvictsLeast(e, slots, m);
      }
    } else {
      var s: set<nat>, t: set<nat> :| s <= t && AreHashes(t) && e.Cardinality(t) < e.Cardinality(s);
      var items, slots := DropGoesWrong(e, s, t);
      assert Reaches(e, 2, items, slots) && |slots| == 2 && IsVictim(e, slots, LOW) && !IsLeast(e, slots, LOW);
    }
  }
}
