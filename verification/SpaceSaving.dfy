/** The SpaceSaving summary as the library holds it: an arena of slots, a digest
    index and an indexed binary heap, all updated in place. */
module SpaceSavings {
  import opened HashSpecs
  import opened KeyOrder
  import opened SpaceSavingSpec
  import opened SpaceSavingArena
  import opened RankedCandidates

  datatype FoundSlot = NotFound | Found(slot: nat)

  class SpaceSaving {
    const capacity: nat
    const hashSpec: HashSpec
    const digestOf: Key -> nat
    var slots: seq<Slot>
    var keyIndex: map<nat, IndexBucket>
    var minHeap: seq<nat>
    var totalWeight: nat
    var updates: nat

    ghost predicate Valid()
      reads this
    {
      && 0 < capacity && |slots| <= capacity
      && DistinctKeys(slots) && Digested(slots, digestOf)
      && IndexOk(slots, keyIndex)
      && Linked(slots, minHeap) && HeapOrdered(slots, minHeap)
    }

    /** The plain map this arena stands for. */
    ghost function Tracks(): Tracked
      requires Valid()
      reads this
    {
      Contents(slots)
    }

    constructor (capacity: nat, hashSpec: HashSpec, digestOf: Key -> nat)
      requires 0 < capacity
      ensures Valid() && Tracks() == map[] && totalWeight == 0 && updates == 0
      ensures this.capacity == capacity && this.hashSpec == hashSpec && this.digestOf == digestOf
    {
      this.capacity, this.hashSpec, this.digestOf := capacity, hashSpec, digestOf;
      slots, keyIndex, minHeap, totalWeight, updates := [], map[], [], 0, 0;
      new;
      EmptyContents();
    }

    /** Exact lookup: bucket by digest, then compare key bytes. */
    function FindSlotWithDigest(key: Key, digest: nat): (r: FoundSlot)
      requires DistinctKeys(slots) && Digested(slots, digestOf) && IndexOk(slots, keyIndex)
      requires digest == digestOf(key)
      reads this
      ensures r.Found? ==> r.slot < |slots| && slots[r.slot].key == key
      ensures r.NotFound? ==> forall i :: 0 <= i < |slots| ==> slots[i].key != key
    {
      if digest !in keyIndex then NotFound
      else
        assert BucketOk(slots, digest, keyIndex[digest]);
        match keyIndex[digest]
        case One(slot) =>
          assert slot in Listed(keyIndex[digest]);
          assert forall x :: x in Listed(keyIndex[digest]) <==> x == slot;
          if slots[slot].key == key then Found(slot) else NotFound
        case Many(members) =>
          assert forall x :: x in Listed(keyIndex[digest]) <==> x in members;
          FindMember(slots, members, key)
    }

    method AddToIndex(digest: nat, slot: nat)
      requires slot < |slots| && IndexWithout(slots, keyIndex, slot) && slots[slot].digest == digest
      modifies this`keyIndex
      ensures IndexOk(slots, keyIndex)
    {
      if digest !in keyIndex {
        keyIndex := keyIndex[digest := One(slot)];
      } else {
        match keyIndex[digest]
        case One(existing) => keyIndex := keyIndex[digest := Many([existing, slot])];
        case Many(members) => keyIndex := keyIndex[digest := Many(members + [slot])];
      }
      IndexGains(slots, old(keyIndex), keyIndex, slot);
    }

    method RemoveFromIndex(digest: nat, slot: nat)
      requires slot < |slots| && IndexOk(slots, keyIndex) && slots[slot].digest == digest
      modifies this`keyIndex
      ensures IndexWithout(slots, keyIndex, slot)
    {
      assert BucketOk(slots, digest, keyIndex[digest]) && slot in Listed(keyIndex[digest]);
      match keyIndex[digest]
      case One(existing) =>
        OnlyMember(slots, digest, keyIndex[digest], slot);
        keyIndex := keyIndex - {digest};
      case Many(members) =>
        var position := PositionOf(members, slot);
        var rest := SwapRemove(members, position);
        keyIndex := keyIndex[digest := if |rest| == 1 then One(rest[0]) else Many(rest)];
        IndexLoses(slots, old(keyIndex), keyIndex, slot, rest);
    }

    method SwapHeap(left: nat, right: nat)
      requires Linked(slots, minHeap) && left < |minHeap| && right < |minHeap|
      modifies this`slots, this`minHeap
      ensures Linked(slots, minHeap) && SameCores(old(slots), slots)
      ensures minHeap == Swapped(old(minHeap), left, right)
    {
      minHeap := minHeap[left := minHeap[right]][right := minHeap[left]];
      slots := slots[minHeap[left] := slots[minHeap[left]].(heapIndex := left)];
      slots := slots[minHeap[right] := slots[minHeap[right]].(heapIndex := right)];
    }

    method SiftUp(start: nat)
      requires Linked(slots, minHeap) && start < |minHeap| && OrderedAbove(slots, minHeap, start)
      modifies this`slots, this`minHeap
      ensures Linked(slots, minHeap) && HeapOrdered(slots, minHeap) && SameCores(old(slots), slots)
    {
      var index: nat := start;
      while index > 0
        invariant index < |minHeap|
        invariant Linked(slots, minHeap) && SameCores(old(slots), slots) && OrderedAbove(slots, minHeap, index)
      {
        var parent := (index - 1) / 2;
        if !SlotLess(slots, minHeap[index], minHeap[parent]) {
          break;
        }
        ghost var before, heap := slots, minHeap;
        SwapHeap(index, parent);
        SiftedUp(before, heap, slots, index);
        index := parent;
      }
      assert forall h :: 0 < h < |minHeap| ==> NotBelow(slots, minHeap, h, Parent(h));
    }

    method SiftDown(start: nat)
      requires Linked(slots, minHeap) && start < |minHeap| && OrderedBelow(slots, minHeap, start)
      modifies this`slots, this`minHeap
      ensures Linked(slots, minHeap) && HeapOrdered(slots, minHeap) && SameCores(old(slots), slots)
    {
      var index := start;
      while true
        invariant index < |minHeap|
        invariant Linked(slots, minHeap) && SameCores(old(slots), slots) && OrderedBelow(slots, minHeap, index)
        decreases |minHeap| - index
      {
        var left := index * 2 + 1;
        if left >= |minHeap| {
          NoChildren(|minHeap|, index);
          break;
        }
        var right := left + 1;
        var smallest := if right < |minHeap| && SlotLess(slots, minHeap[right], minHeap[left]) then right else left;
        SmallestChild(slots, minHeap, index, smallest);
        if !SlotLess(slots, minHeap[smallest], minHeap[index]) {
          ChildrenNotBelow(slots, minHeap, index, smallest);
          break;
        }
        ghost var before, heap := slots, minHeap;
        SwapHeap(index, smallest);
        SiftedDown(before, heap, slots, index, smallest);
        index := smallest;
      }
    }

    method InsertEntry(key: Key, digest: nat, count: nat, error: nat)
      requires Valid() && |slots| < capacity && key !in Tracks() && digest == digestOf(key)
      modifies this`slots, this`keyIndex, this`minHeap
      ensures Valid() && Tracks() == old(Tracks())[key := Entry(count, error)]
    {
      hide Contents, HeapOrdered, Linked, DistinctKeys, Digested, IndexOk, IndexWithout, SameCores, OrderedAbove;
      var slot, position := |slots|, |minHeap|;
      var pushed := Slot(key, digest, Entry(count, error), position);
      PushedReady(slots, minHeap, keyIndex, digestOf, pushed);
      ghost var before := slots + [pushed];
      slots := slots + [pushed];
      AddToIndex(digest, slot);
      minHeap := minHeap + [slot];
      SiftUp(position);
      CoresKeep(before, slots, keyIndex, digestOf);
    }

    /** Overwrite the root's slot with a new key; returns the evicted one. */
    method ReplaceMin(key: Key, digest: nat, count: nat, error: nat) returns (oldKey: Key)
      requires Valid() && Tracks() != map[] && key !in Tracks() && digest == digestOf(key)
      modifies this`slots, this`keyIndex, this`minHeap
      ensures oldKey == MinKey(old(Tracks()), digestOf) && Valid()
      ensures Tracks() == (old(Tracks()) - {oldKey})[key := Entry(count, error)]
    {
      hide Contents, HeapOrdered, Linked, DistinctKeys, Digested, IndexOk, SameCores, OrderedBelow, IndexWithout;
      RootReady(slots, minHeap, digestOf);
      var slot := minHeap[0];
      ghost var before := slots;
      RemoveFromIndex(slots[slot].digest, slot);
      oldKey := slots[slot].key;
      ghost var replaced := slots[slot := Slot(key, digest, Entry(count, error), slots[slot].heapIndex)];
      ReplacedReady(slots, minHeap, keyIndex, digestOf, Slot(key, digest, Entry(count, error), slots[slot].heapIndex));
      slots := slots[slot := Slot(key, digest, Entry(count, error), slots[slot].heapIndex)];
      AddToIndex(digest, slot);
      SiftDown(0);
      CoresKeep(replaced, slots, keyIndex, digestOf);
    }

    function MinimumCount(): (r: nat)
      requires Valid()
      reads this
    {
      if minHeap == [] then 0 else slots[minHeap[0]].entry.count
    }

    /** Add weight to a tracked key; its slot can only move down the heap. */
    method RaiseSlot(index: nat, weight: nat)
      requires Valid() && index < |slots|
      modifies this`slots, this`minHeap
      ensures Valid()
      ensures var key := old(slots)[index].key;
        Tracks() == old(Tracks())[key := Entry(old(Tracks())[key].count + weight, old(Tracks())[key].error)]
    {
      hide Contents, HeapOrdered, Linked, DistinctKeys, Digested, IndexOk, SameCores, OrderedBelow, Raised;
      ghost var raised := Raised(slots, index, weight);
      RaisedReady(slots, minHeap, keyIndex, digestOf, index, weight);
      var slot := slots[index];
      slots := slots[index := slot.(entry := Entry(slot.entry.count + weight, slot.entry.error))];
      SiftDown(slot.heapIndex);
      CoresKeep(raised, slots, keyIndex, digestOf);
    }

    /** One weighted update: on the plain map it is AddTo, whatever the layout. */
    method Add(key: Key, weight: nat)
      requires Valid()
      modifies this
      ensures Valid() && Tracks() == AddTo(capacity, digestOf, old(Tracks()), key, weight)
      ensures totalWeight == old(totalWeight) + weight && updates == old(updates) + 1
    {
      hide Contents, SlotLess, BucketOk, HeapOrdered, DistinctKeys, Digested, Linked, IndexOk, MinKey, AddTo;
      AddCases(capacity, digestOf, Tracks(), key, weight);
      totalWeight := totalWeight + weight;
      updates := updates + 1;
      var digest := digestOf(key);
      ContentsSize(slots);
      var found := FindSlotWithDigest(key, digest);
      if found.Found? {
        RaiseSlot(found.slot, weight);
        return;
      }
      if |slots| < capacity {
        InsertEntry(key, digest, weight, 0);
        return;
      }
      SomeTracked(slots);
      RootReady(slots, minHeap, digestOf);
      var minimum := MinimumCount();
      var evicted := ReplaceMin(key, digest, minimum + weight, minimum);
    }

    /** The same update from a scratch buffer, which comes back empty. */
    method AddKeyBuf(key: Key, weight: nat) returns (scratch: Key)
      requires Valid()
      modifies this
      ensures Valid() && Tracks() == AddTo(capacity, digestOf, old(Tracks()), key, weight) && scratch == []
      ensures totalWeight == old(totalWeight) + weight && updates == old(updates) + 1
    {
      hide Contents, SlotLess, BucketOk, HeapOrdered, DistinctKeys, Digested, Linked, IndexOk, MinKey, AddTo;
      AddCases(capacity, digestOf, Tracks(), key, weight);
      totalWeight := totalWeight + weight;
      updates := updates + 1;
      var digest := digestOf(key);
      ContentsSize(slots);
      var found := FindSlotWithDigest(key, digest);
      if found.Found? {
        RaiseSlot(found.slot, weight);
        return [];
      }
      if |slots| < capacity {
        InsertEntry(key, digest, weight, 0);
        return [];
      }
      SomeTracked(slots);
      RootReady(slots, minHeap, digestOf);
      var minimum := MinimumCount();
      scratch := ReplaceMin(key, digest, minimum + weight, minimum);
      scratch := [];
    }

    function Get(key: Key): (r: FoundSlot)
      requires Valid()
      reads this
      ensures r.Found? <==> key in Tracks()
      ensures r.Found? ==> r.slot < |slots| && Tracks()[key] == slots[r.slot].entry
    {
      FindSlotWithDigest(key, digestOf(key))
    }

    /** What an untracked key may have counted. */
    function FloorCount(): (r: nat)
      requires Valid()
      reads this
      ensures r == Floor(capacity, Tracks())
    {
      FloorOfArena(slots, minHeap, capacity, digestOf);
      if |slots| >= capacity then MinimumCount() else 0
    }

    /** This summary's keys, each charged by both. */
    method CombineOwn(other: SpaceSaving, otherMin: nat) returns (merged: seq<Candidate>)
      requires Valid() && other.Valid() && otherMin == Floor(capacity, other.Tracks())
      ensures Distinct(merged) && MapOf(merged) == Charged(capacity, Tracks(), other.Tracks(), Tracks().Keys)
    {
      hide Contents, MapOf, Linked, HeapOrdered, IndexOk, Digested, DistinctKeys, Distinct, Charged, Floor;
      merged := [];
      NothingCharged(capacity, Tracks(), other.Tracks());
      NoKeysYet(slots, {});
      hide KeysBelow;
      for i := 0 to |slots|
        invariant Distinct(merged)
        invariant MapOf(merged) == Charged(capacity, Tracks(), other.Tracks(), KeysBelow(slots, i))
      {
        hide KeysBelow;
        var slot := slots[i];
        var found := other.Get(slot.key);
        var theirs := if found.Found? then other.slots[found.slot].entry else Entry(otherMin, otherMin);
        SlotIsNew(slots, i);
        ChargedSnoc(capacity, Tracks(), other.Tracks(), KeysBelow(slots, i), merged, slot.key);
        merged := merged + [Candidate(slot.key, Entry(slot.entry.count + theirs.count, slot.entry.error + theirs.error))];
      }
      AllKeys(slots);
    }

    /** The union of both summaries, each key charged by both. */
    method Combine(other: SpaceSaving) returns (merged: seq<Candidate>)
      requires Valid() && other.Valid() && other.capacity == capacity
      ensures Distinct(merged) && MapOf(merged) == Combined(capacity, Tracks(), other.Tracks())
    {
      hide Contents, MapOf, Linked, HeapOrdered, IndexOk, Digested, DistinctKeys, Distinct, Charged, Floor;
      var selfMin, otherMin := FloorCount(), other.FloorCount();
      merged := CombineOwn(other, otherMin);
      NoKeysYet(other.slots, Tracks().Keys);
      for i := 0 to |other.slots|
        invariant Distinct(merged)
        invariant MapOf(merged)
          == Charged(capacity, Tracks(), other.Tracks(), Tracks().Keys + KeysBelow(other.slots, i))
      {
        hide KeysBelow;
        var slot := other.slots[i];
        SlotIsNew(other.slots, i);
        KeysGrow(Tracks().Keys, other.slots, i);
        if Get(slot.key).NotFound? {
          ChargedSnoc(capacity, Tracks(), other.Tracks(), Tracks().Keys + KeysBelow(other.slots, i), merged, slot.key);
          merged := merged + [Candidate(slot.key, Entry(slot.entry.count + selfMin, slot.entry.error + selfMin))];
        }
      }
      AllKeys(other.slots);
      AllCharged(capacity, Tracks(), other.Tracks());
    }

    /** Insert the kept candidates into an empty arena. */
    method Reinsert(kept: seq<Candidate>)
      requires Valid() && slots == [] && Distinct(kept) && |kept| <= capacity
      modifies this`slots, this`keyIndex, this`minHeap
      ensures Valid() && Tracks() == MapOf(kept)
    {
      hide Contents, MapOf, Linked, HeapOrdered, IndexOk, Digested, DistinctKeys;
      assert kept[..0] == [];
      EmptyMap();
      SomeTracked(slots);
      for i := 0 to |kept|
        invariant Valid() && |slots| == i && Distinct(kept[..i]) && Tracks() == MapOf(kept[..i])
      {
        hide Distinct;
        var c := kept[i];
        assert kept[..i + 1] == kept[..i] + [c];
        PrefixLacks(kept, i);
        MapSnoc(kept[..i], c);
        ContentsSize(slots);
        InsertEntry(c.key, digestOf(c.key), c.entry.count, c.entry.error);
        ContentsSize(slots);
      }
      assert kept[..|kept|] == kept;
    }

    method Clear()
      requires 0 < capacity
      modifies this`slots, this`keyIndex, this`minHeap
      ensures Valid() && Tracks() == map[] && slots == []
    {
      slots, keyIndex, minHeap := [], map[], [];
      EmptyContents();
    }

    /** Replace the tracked keys by the best of the merged candidates. */
    method KeepBest(merged: seq<Candidate>)
      requires Valid() && Distinct(merged)
      modifies this`slots, this`keyIndex, this`minHeap
      ensures Valid() && Tracks() == Trim(capacity, MapOf(merged))
    {
      hide Contents, MapOf, Linked, HeapOrdered, IndexOk, Digested, DistinctKeys, Sort, Distinct, Trim, Prefix;
      TrimmedCandidates(merged, capacity);
      Clear();
      Reinsert(Prefix(Sort(merged), capacity));
    }

    method HasKey(key: Key, digest: nat) returns (found: bool)
      requires Valid() && digest == digestOf(key)
      ensures found <==> key in Tracks()
    {
      hide Contents, HeapOrdered, Linked;
      found := FindSlotWithDigest(key, digest).Found?;
      if key in Tracks() {
        var i :| 0 <= i < |slots| && slots[i].key == key;
      }
    }

    /** Every tracked key with its entry, in slot order. */
    method Listing() returns (l: seq<Candidate>)
      requires Valid()
      ensures Distinct(l) && MapOf(l) == Tracks()
    {
      hide Contents, MapOf, Linked, HeapOrdered, IndexOk;
      var s := slots;
      l := seq(|s|, i requires 0 <= i < |s| => Candidate(s[i].key, s[i].entry));
      ListedSlots(s, l);
    }

    /** Merge another summary of the same configuration: on plain maps, MergeTo. */
    method MergeFrom(other: SpaceSaving) returns (ok: bool)
      requires Valid() && other.Valid() && other != this
      modifies this
      ensures Valid() && (ok <==> other.capacity == capacity && other.hashSpec == hashSpec)
      ensures Tracks() == if ok then MergeTo(capacity, old(Tracks()), other.Tracks()) else old(Tracks())
      ensures totalWeight == old(totalWeight) + (if ok then other.totalWeight else 0)
      ensures updates == old(updates) + (if ok then other.updates else 0)
    {
      hide Contents, MapOf, Linked, HeapOrdered, IndexOk, Digested, DistinctKeys, Distinct, Trim;
      ok := other.capacity == capacity && other.hashSpec == hashSpec;
      if ok {
        var merged := Combine(other);
        KeepBest(merged);
        totalWeight := totalWeight + other.totalWeight;
        updates := updates + other.updates;
      }
    }
  }

  lemma {:induction false} ListedSlots(slots: seq<Slot>, l: seq<Candidate>)
    requires DistinctKeys(slots) && |l| == |slots|
    requires forall i :: 0 <= i < |l| ==> l[i] == Candidate(slots[i].key, slots[i].entry)
    ensures Distinct(l) && MapOf(l) == Contents(slots)
  {
    hide Contents, MapOf;
    forall k | k in Contents(slots)
      ensures exists i :: 0 <= i < |l| && l[i].key == k
    {
      var i :| 0 <= i < |slots| && slots[i].key == k;
      assert l[i].key == k;
    }
    SameMap(l, Contents(slots));
  }

  lemma {:induction false} SomeTracked(slots: seq<Slot>)
    requires DistinctKeys(slots)
    ensures Contents(slots) != map[] <==> slots != []
  {
    if slots != [] {
      assert slots[0].key in Contents(slots);
    }
  }

  lemma {:induction false} EmptyContents()
    ensures Contents([]) == map[]
  {
  }

  lemma {:induction false} AddCases(capacity: nat, digest: Key -> nat, m: Tracked, key: Key, weight: nat)
    requires 0 < capacity
    ensures var r := AddTo(capacity, digest, m, key, weight);
      && (key in m ==> r == m[key := Entry(m[key].count + weight, m[key].error)])
      && (key !in m && |m| < capacity ==> r == m[key := Entry(weight, 0)])
      && (key !in m && |m| >= capacity ==>
            var victim := MinKey(m, digest);
            r == (m - {victim})[key := Entry(m[victim].count + weight, m[victim].count)])
  {
  }

  // --- merge helpers ---

  lemma {:induction false} FloorOfArena(slots: seq<Slot>, heap: seq<nat>, capacity: nat, digest: Key -> nat)
    requires Linked(slots, heap) && HeapOrdered(slots, heap) && DistinctKeys(slots) && Digested(slots, digest)
    requires 0 < capacity
    ensures |slots| < capacity ==> Floor(capacity, Contents(slots)) == 0
    ensures capacity <= |slots| ==> |heap| > 0 && heap[0] < |slots|
    ensures capacity <= |slots| ==> slots[heap[0]].entry.count == Floor(capacity, Contents(slots))
  {
    hide Contents, HeapOrdered;
    ContentsSize(slots);
    if capacity <= |slots| {
      SomeTracked(slots);
      RootReady(slots, heap, digest);
      FloorIsLeast(capacity, Contents(slots), digest, slots[heap[0]].key);
    }
  }

  lemma {:induction false} EmptyMap()
    ensures MapOf([]) == map[]
  {
  }

  ghost function Charged(capacity: nat, a: Tracked, b: Tracked, keys: set<Key>): Tracked {
    map k | k in keys ::
      Entry(Charge(capacity, a, k).count + Charge(capacity, b, k).count,
            Charge(capacity, a, k).error + Charge(capacity, b, k).error)
  }

  lemma {:induction false} NothingCharged(capacity: nat, a: Tracked, b: Tracked)
    ensures Distinct([]) && MapOf([]) == Charged(capacity, a, b, {})
  {
  }

  lemma {:induction false} AllCharged(capacity: nat, a: Tracked, b: Tracked)
    ensures Charged(capacity, a, b, a.Keys + b.Keys) == Combined(capacity, a, b)
  {
  }

  /** One more candidate with both charges. */
  lemma {:induction false} ChargedSnoc(capacity: nat, a: Tracked, b: Tracked, keys: set<Key>, merged: seq<Candidate>, k: Key)
    requires k !in keys && Distinct(merged) && MapOf(merged) == Charged(capacity, a, b, keys)
    ensures var e := Entry(Charge(capacity, a, k).count + Charge(capacity, b, k).count,
                           Charge(capacity, a, k).error + Charge(capacity, b, k).error);
      var more := merged + [Candidate(k, e)];
      Distinct(more) && MapOf(more) == Charged(capacity, a, b, keys + {k})
  {
    hide MapOf, Charge;
    var e := Entry(Charge(capacity, a, k).count + Charge(capacity, b, k).count,
                   Charge(capacity, a, k).error + Charge(capacity, b, k).error);
    MapSnoc(merged, Candidate(k, e));
  }

  lemma {:induction false} TrimmedCandidates(merged: seq<Candidate>, capacity: nat)
    requires Distinct(merged)
    ensures var kept := Prefix(Sort(merged), capacity);
      |kept| <= capacity && Distinct(kept) && MapOf(kept) == Trim(capacity, MapOf(merged))
  {
    hide MapOf, Sort, Trim, Sorted, Distinct;
    SortSorts(merged);
    PrefixIsTrim(Sort(merged), capacity);
  }

  lemma {:induction false} NoKeysYet(slots: seq<Slot>, keys: set<Key>)
    ensures keys + KeysBelow(slots, 0) == keys && KeysBelow(slots, 0) == {}
  {
  }

  lemma {:induction false} KeysGrow(keys: set<Key>, slots: seq<Slot>, i: nat)
    requires i < |slots| && KeysBelow(slots, i + 1) == KeysBelow(slots, i) + {slots[i].key}
    ensures keys + KeysBelow(slots, i + 1) == keys + KeysBelow(slots, i) + {slots[i].key}
    ensures slots[i].key in keys ==> keys + KeysBelow(slots, i + 1) == keys + KeysBelow(slots, i)
  {
  }

  ghost function KeysBelow(slots: seq<Slot>, n: nat): set<Key>
    requires n <= |slots|
  {
    set i | 0 <= i < n :: slots[i].key
  }

  lemma {:induction false} SlotIsNew(slots: seq<Slot>, i: nat)
    requires DistinctKeys(slots) && i < |slots|
    ensures slots[i].key !in KeysBelow(slots, i)
    ensures KeysBelow(slots, i + 1) == KeysBelow(slots, i) + {slots[i].key}
    ensures slots[i].key in Contents(slots) && Contents(slots)[slots[i].key] == slots[i].entry
  {
  }

  lemma {:induction false} AllKeys(slots: seq<Slot>)
    requires DistinctKeys(slots)
    ensures KeysBelow(slots, |slots|) == Contents(slots).Keys
  {
    hide Contents;
    forall k | k in Contents(slots)
      ensures k in KeysBelow(slots, |slots|)
    {
      var i :| 0 <= i < |slots| && slots[i].key == k;
    }
  }

  lemma {:induction false} PrefixLacks(s: seq<Candidate>, i: nat)
    requires Distinct(s) && i < |s|
    ensures Distinct(s[..i]) && s[i].key !in MapOf(s[..i])
  {
    hide MapOf;
    assert forall j :: 0 <= j < i ==> s[..i][j].key != s[i].key;
  }

  // --- index helpers ---

  function FindMember(slots: seq<Slot>, members: seq<nat>, key: Key): (r: FoundSlot)
    requires forall x :: x in members ==> 0 <= x < |slots|
    ensures r.Found? ==> r.slot < |slots| && slots[r.slot].key == key
    ensures r.NotFound? ==> forall x :: x in members ==> slots[x].key != key
  {
    if members == [] then NotFound
    else
      assert members[0] in members;
      if slots[members[0]].key == key then Found(members[0])
    else
      assert forall x :: x in members <==> x == members[0] || x in members[1..];
      FindMember(slots, members[1..], key)
  }

  function PositionOf(members: seq<nat>, x: nat): (i: nat)
    requires x in members
    ensures i < |members| && members[i] == x
  {
    if members[0] == x then 0 else PositionOf(members[1..], x) + 1
  }

  /** Remove one element, filling its place with the last one. */
  function SwapRemove(members: seq<nat>, i: nat): (r: seq<nat>)
    requires i < |members| && NoRepeats(members)
    ensures |r| == |members| - 1 && NoRepeats(r)
    ensures forall x :: x in r <==> x in members && x != members[i]
  {
    var last := |members| - 1;
    var r := if i == last then members[..last] else members[..last][i := members[last]];
    assert forall x :: x in r ==> x in members && x != members[i];
    assert forall j :: 0 <= j < |members| && j != i ==> members[j] in r by {
      forall j | 0 <= j < |members| && j != i
        ensures members[j] in r
      {
        if j == last {
          assert r[i] == members[j];
        } else {
          assert r[j] == members[j];
        }
      }
    }
    r
  }

  lemma {:induction false} OnlyMember(slots: seq<Slot>, digest: nat, b: IndexBucket, slot: nat)
    requires BucketOk(slots, digest, b) && b.One? && slot < |slots| && slots[slot].digest == digest
    ensures b.slot == slot && forall i :: 0 <= i < |slots| && i != slot ==> slots[i].digest != digest
  {
    assert slot in Listed(b);
    forall i | 0 <= i < |slots| && slots[i].digest == digest
      ensures i == slot
    {
      assert i in Listed(b);
    }
  }

  lemma {:induction false} IndexLoses(slots: seq<Slot>, before: map<nat, IndexBucket>, after: map<nat, IndexBucket>, slot: nat, rest: seq<nat>)
    requires slot < |slots| && IndexOk(slots, before)
    requires var d := slots[slot].digest;
      && d in before && d in after && after == before[d := after[d]]
      && Listed(after[d]) == rest && |rest| >= 1 && NoRepeats(rest) && (after[d].Many? ==> |rest| >= 2)
      && forall x :: x in rest <==> x in Listed(before[d]) && x != slot
    ensures IndexWithout(slots, after, slot)
  {
    var d := slots[slot].digest;
    forall e | e in after
      ensures NoRepeats(Listed(after[e])) && (after[e].Many? ==> |after[e].members| >= 2) && Listed(after[e]) != []
      ensures forall x :: x in Listed(after[e]) <==> 0 <= x < |slots| && x != slot && slots[x].digest == e
    {
      assert BucketOk(slots, e, before[e]);
      assert e != d ==> after[e] == before[e];
    }
  }

  lemma {:induction false} IndexGains(slots: seq<Slot>, before: map<nat, IndexBucket>, after: map<nat, IndexBucket>, slot: nat)
    requires slot < |slots| && IndexWithout(slots, before, slot)
    requires var d := slots[slot].digest;
      && after.Keys == before.Keys + {d}
      && (forall e :: e in before && e != d ==> after[e] == before[e])
      && Listed(after[d]) == (if d in before then Listed(before[d]) else []) + [slot]
      && (after[d].Many? ==> d in before)
    ensures IndexOk(slots, after)
  {
    var d := slots[slot].digest;
    forall e | e in after
      ensures BucketOk(slots, e, after[e])
    {
      if e == d {
        if d !in before {
          assert forall i :: 0 <= i < |slots| && i != slot ==> slots[i].digest != d;
        }
      }
    }
  }

  lemma {:induction false} PushedIndex(slots: seq<Slot>, index: map<nat, IndexBucket>, pushed: Slot)
    requires IndexOk(slots, index)
    ensures IndexWithout(slots + [pushed], index, |slots|)
  {
    forall d | d in index
      ensures Listed(index[d]) != []
      ensures forall x :: x in Listed(index[d]) <==>
        0 <= x < |slots + [pushed]| && x != |slots| && (slots + [pushed])[x].digest == d
    {
      assert BucketOk(slots, d, index[d]);
      SomeSlot(slots, index, d);
    }
  }

  lemma {:induction false} SomeSlot(slots: seq<Slot>, index: map<nat, IndexBucket>, d: nat)
    requires d in index && BucketOk(slots, d, index[d])
    ensures Listed(index[d]) != []
  {
  }

  lemma {:induction false} RaisedIndex(before: seq<Slot>, after: seq<Slot>, index: map<nat, IndexBucket>, slot: nat)
    requires IndexOk(before, index) && |after| == |before|
    requires forall i :: 0 <= i < |before| ==> after[i].digest == before[i].digest
    ensures IndexOk(after, index)
  {
    forall d | d in index
      ensures BucketOk(after, d, index[d])
    {
      assert BucketOk(before, d, index[d]);
    }
  }

  /** Index, digests and contents do not depend on heap positions. */
  lemma {:induction false} CoresKeep(before: seq<Slot>, after: seq<Slot>, index: map<nat, IndexBucket>, digest: Key -> nat)
    requires SameCores(before, after) && DistinctKeys(before) && Digested(before, digest) && IndexOk(before, index)
    ensures DistinctKeys(after) && Digested(after, digest) && IndexOk(after, index)
    ensures Contents(after) == Contents(before) && |after| == |before|
  {
    SameContents(before, after);
    assert forall i :: 0 <= i < |before| ==> after[i].digest == before[i].digest && after[i].key == before[i].key;
    RaisedIndex(before, after, index, 0);
  }

  // --- contents helpers ---

  lemma {:induction false} PushedContents(slots: seq<Slot>, pushed: Slot)
    requires DistinctKeys(slots) && pushed.key !in Contents(slots)
    ensures DistinctKeys(slots + [pushed])
    ensures Contents(slots + [pushed]) == Contents(slots)[pushed.key := pushed.entry]
  {
    hide Contents;
    var all := slots + [pushed];
    assert forall i :: 0 <= i < |slots| ==> slots[i].key in Contents(slots);
    assert DistinctKeys(all);
    forall k | k in Contents(all)
      ensures k in Contents(slots)[pushed.key := pushed.entry]
    {
      var i :| 0 <= i < |all| && all[i].key == k;
      assert i < |slots| ==> slots[i].key == k;
    }
    forall k | k in Contents(slots)[pushed.key := pushed.entry]
      ensures k in Contents(all) && Contents(all)[k] == Contents(slots)[pushed.key := pushed.entry][k]
    {
      if k == pushed.key {
        assert all[|slots|].key == k;
      } else {
        var i :| 0 <= i < |slots| && slots[i].key == k;
        assert all[i].key == k;
      }
    }
  }

  lemma {:induction false} ReplacedContents(slots: seq<Slot>, slot: nat, newcomer: Slot)
    requires DistinctKeys(slots) && slot < |slots| && newcomer.key !in Contents(slots)
    ensures DistinctKeys(slots[slot := newcomer])
    ensures Contents(slots[slot := newcomer]) == (Contents(slots) - {slots[slot].key})[newcomer.key := newcomer.entry]
  {
    hide Contents;
    var all, expected := slots[slot := newcomer], (Contents(slots) - {slots[slot].key})[newcomer.key := newcomer.entry];
    assert forall i :: 0 <= i < |slots| ==> slots[i].key in Contents(slots);
    assert DistinctKeys(all);
    forall k | k in Contents(all)
      ensures k in expected
    {
      var i :| 0 <= i < |all| && all[i].key == k;
      assert i != slot ==> slots[i].key == k;
    }
    forall k | k in expected
      ensures k in Contents(all) && Contents(all)[k] == expected[k]
    {
      if k == newcomer.key {
        assert all[slot].key == k;
      } else {
        var i :| 0 <= i < |slots| && slots[i].key == k;
        assert all[i].key == k;
      }
    }
  }

  function Raised(slots: seq<Slot>, slot: nat, weight: nat): seq<Slot>
    requires slot < |slots|
  {
    var s := slots[slot];
    slots[slot := s.(entry := Entry(s.entry.count + weight, s.entry.error))]
  }

  lemma {:induction false} RaisedContents(slots: seq<Slot>, slot: nat, weight: nat)
    requires DistinctKeys(slots) && slot < |slots|
    ensures var r := Raised(slots, slot, weight);
      DistinctKeys(r) && Contents(r) == Contents(slots)[slots[slot].key := r[slot].entry]
  {
    hide Contents;
    var r := Raised(slots, slot, weight);
    assert forall i :: 0 <= i < |slots| ==> r[i].key == slots[i].key;
    forall k | k in Contents(r)
      ensures k in Contents(slots)
    {
      var i :| 0 <= i < |r| && r[i].key == k;
      assert slots[i].key == k;
    }
    forall k | k in Contents(slots)
      ensures k in Contents(r) && (k != slots[slot].key ==> Contents(r)[k] == Contents(slots)[k])
    {
      var i :| 0 <= i < |slots| && slots[i].key == k;
      assert r[i].key == k;
    }
    assert r[slot].key in Contents(r);
  }

  /** After a raise everything but the heap order below the slot still holds. */
  lemma {:induction false} RaisedReady(slots: seq<Slot>, heap: seq<nat>, index: map<nat, IndexBucket>, digest: Key -> nat,
                                       slot: nat, weight: nat)
    requires DistinctKeys(slots) && Digested(slots, digest) && IndexOk(slots, index)
    requires Linked(slots, heap) && HeapOrdered(slots, heap) && slot < |slots|
    ensures var r, s := Raised(slots, slot, weight), slots[slot];
      && r == slots[slot := s.(entry := Entry(s.entry.count + weight, s.entry.error))]
      && DistinctKeys(r) && Digested(r, digest) && IndexOk(r, index)
      && Linked(r, heap) && s.heapIndex < |heap| && OrderedBelow(r, heap, s.heapIndex)
      && s.key in Contents(slots) && Contents(slots)[s.key] == s.entry
      && Contents(r) == Contents(slots)[s.key := Entry(s.entry.count + weight, s.entry.error)]
  {
    hide Contents, HeapOrdered, Linked, DistinctKeys, Digested, IndexOk, OrderedBelow;
    RaisedContents(slots, slot, weight);
    RaisedOrder(slots, heap, slot, weight);
    RaisedIndex(slots, Raised(slots, slot, weight), index, slot);
    DigestsKept(slots, Raised(slots, slot, weight), digest);
  }

  lemma {:induction false} DigestsKept(slots: seq<Slot>, after: seq<Slot>, digest: Key -> nat)
    requires Digested(slots, digest) && |after| == |slots|
    requires forall i :: 0 <= i < |slots| ==> after[i].key == slots[i].key && after[i].digest == slots[i].digest
    ensures Digested(after, digest)
  {
  }

  lemma {:induction false} RootReady(slots: seq<Slot>, heap: seq<nat>, digest: Key -> nat)
    requires Linked(slots, heap) && HeapOrdered(slots, heap) && DistinctKeys(slots) && Digested(slots, digest)
    requires Contents(slots) != map[]
    ensures slots != [] && |heap| == |slots| && heap[0] < |slots|
    ensures MinKey(Contents(slots), digest) == slots[heap[0]].key
    ensures slots[heap[0]].key in Contents(slots) && Contents(slots)[slots[heap[0]].key] == slots[heap[0]].entry
  {
    hide Contents, HeapOrdered;
    SomeTracked(slots);
    RootIsMinKey(slots, heap, digest);
  }

  /** After the root's slot is overwritten, the index awaits it and the heap is
      ordered but for the root. */
  lemma {:induction false} ReplacedReady(slots: seq<Slot>, heap: seq<nat>, index: map<nat, IndexBucket>, digest: Key -> nat,
                                         newcomer: Slot)
    requires Linked(slots, heap) && HeapOrdered(slots, heap) && DistinctKeys(slots) && Digested(slots, digest)
    requires slots != [] && IndexWithout(slots, index, heap[0])
    requires newcomer.key !in Contents(slots) && newcomer.digest == digest(newcomer.key)
    requires newcomer.heapIndex == slots[heap[0]].heapIndex
    ensures var r := slots[heap[0] := newcomer];
      && DistinctKeys(r) && Digested(r, digest) && IndexWithout(r, index, heap[0])
      && Linked(r, heap) && OrderedBelow(r, heap, 0)
      && Contents(r) == (Contents(slots) - {slots[heap[0]].key})[newcomer.key := newcomer.entry]
  {
    hide Contents, HeapOrdered, DistinctKeys, Digested, IndexWithout, OrderedBelow;
    var r := slots[heap[0] := newcomer];
    ReplacedContents(slots, heap[0], newcomer);
    RootOrder(slots, heap, r);
    HoleStays(slots, r, index, heap[0]);
    DigestReplaced(slots, heap[0], newcomer, digest);
  }

  /** After a push the index awaits the new slot and the heap is ordered but for it. */
  lemma {:induction false} PushedReady(slots: seq<Slot>, heap: seq<nat>, index: map<nat, IndexBucket>, digest: Key -> nat,
                                       pushed: Slot)
    requires Linked(slots, heap) && HeapOrdered(slots, heap) && DistinctKeys(slots) && Digested(slots, digest)
    requires IndexOk(slots, index) && pushed.key !in Contents(slots)
    requires pushed.digest == digest(pushed.key) && pushed.heapIndex == |heap|
    ensures var r, h := slots + [pushed], heap + [|slots|];
      && DistinctKeys(r) && Digested(r, digest) && IndexWithout(r, index, |slots|)
      && Linked(r, h) && OrderedAbove(r, h, |heap|)
      && Contents(r) == Contents(slots)[pushed.key := pushed.entry]
  {
    hide Contents, HeapOrdered, DistinctKeys, IndexOk, IndexWithout, OrderedAbove;
    PushedContents(slots, pushed);
    PushedIndex(slots, index, pushed);
    PushedOrder(slots, heap, slots + [pushed], heap + [|slots|]);
  }

  lemma {:induction false} DigestReplaced(slots: seq<Slot>, slot: nat, newcomer: Slot, digest: Key -> nat)
    requires Digested(slots, digest) && slot < |slots| && newcomer.digest == digest(newcomer.key)
    ensures Digested(slots[slot := newcomer], digest)
  {
  }

  lemma {:induction false} HoleStays(slots: seq<Slot>, after: seq<Slot>, index: map<nat, IndexBucket>, hole: nat)
    requires IndexWithout(slots, index, hole) && |after| == |slots|
    requires forall i :: 0 <= i < |slots| && i != hole ==> after[i] == slots[i]
    ensures IndexWithout(after, index, hole)
  {
  }

  // --- heap helpers ---

  lemma {:induction false} NoChildren(size: nat, at: nat)
    requires size <= at * 2 + 1
    ensures forall h :: 0 < h < size ==> Parent(h) != at
  {
  }

  lemma {:induction false} SmallestChild(slots: seq<Slot>, heap: seq<nat>, at: nat, smallest: nat)
    requires Linked(slots, heap) && at * 2 + 1 < |heap|
    requires var left, right := at * 2 + 1, at * 2 + 2;
      smallest == if right < |heap| && SlotLess(slots, heap[right], heap[left]) then right else left
    ensures 0 < smallest < |heap| && Parent(smallest) == at
    ensures forall h :: 0 < h < |heap| && Parent(h) == at ==> NotBelow(slots, heap, h, smallest)
  {
    var left, right := at * 2 + 1, at * 2 + 2;
    SelfNotLess(slots, heap[smallest]);
    if smallest == right {
      LessIsNotMore(slots, heap[right], heap[left]);
    }
    assert forall h :: 0 < h && Parent(h) == at ==> h == left || h == right;
  }

  lemma {:induction false} ChildrenNotBelow(slots: seq<Slot>, heap: seq<nat>, at: nat, smallest: nat)
    requires Linked(slots, heap) && OrderedBelow(slots, heap, at) && at < |heap| && smallest < |heap|
    requires !SlotLess(slots, heap[smallest], heap[at])
    requires forall h :: 0 < h < |heap| && Parent(h) == at ==> NotBelow(slots, heap, h, smallest)
    ensures HeapOrdered(slots, heap)
  {
    forall h | 0 < h < |heap|
      ensures NotBelow(slots, heap, h, Parent(h))
    {
      if Parent(h) == at {
        assert NotBelow(slots, heap, h, smallest);
        NotLessTrans(slots, heap[at], heap[smallest], heap[h]);
      }
    }
  }

  lemma {:induction false} PushedOrder(slots: seq<Slot>, heap: seq<nat>, after: seq<Slot>, pushed: seq<nat>)
    requires Linked(slots, heap) && HeapOrdered(slots, heap)
    requires |after| == |slots| + 1 && after[..|slots|] == slots && after[|slots|].heapIndex == |heap|
    requires pushed == heap + [|slots|]
    ensures Linked(after, pushed) && OrderedAbove(after, pushed, |heap|)
  {
    assert forall i :: 0 <= i < |slots| ==> after[i] == slots[i];
    assert Linked(after, pushed);
    forall h | 0 < h < |heap|
      ensures NotBelow(after, pushed, h, Parent(h))
    {
      assert NotBelow(slots, heap, h, Parent(h));
    }
    assert forall h :: 0 < h <= |heap| ==> Parent(h) < |heap|;
  }

  lemma {:induction false} RootOrder(slots: seq<Slot>, heap: seq<nat>, after: seq<Slot>)
    requires Linked(slots, heap) && HeapOrdered(slots, heap) && |after| == |slots| > 0
    requires forall i :: 0 <= i < |slots| && i != heap[0] ==> after[i] == slots[i]
    requires after[heap[0]].heapIndex == 0
    ensures Linked(after, heap) && OrderedBelow(after, heap, 0)
  {
    forall h | 0 < h < |heap| && Parent(h) != 0
      ensures NotBelow(after, heap, h, Parent(h))
    {
      assert NotBelow(slots, heap, h, Parent(h));
      assert heap[h] != heap[0] && heap[Parent(h)] != heap[0];
    }
  }

  /** Raising one count can only make its slot sort later. */
  lemma {:induction false} RaisedOrder(slots: seq<Slot>, heap: seq<nat>, slot: nat, weight: nat)
    requires Linked(slots, heap) && HeapOrdered(slots, heap) && slot < |slots|
    ensures var r := Raised(slots, slot, weight);
      Linked(r, heap) && slots[slot].heapIndex < |heap| && OrderedBelow(r, heap, slots[slot].heapIndex)
  {
    var r, at := Raised(slots, slot, weight), slots[slot].heapIndex;
    assert Linked(r, heap);
    forall h | 0 < h < |heap| && Parent(h) != at
      ensures NotBelow(r, heap, h, Parent(h))
    {
      assert NotBelow(slots, heap, h, Parent(h));
      assert heap[Parent(h)] != slot;
    }
    forall h | 0 < h < |heap| && Parent(h) == at && 0 < at
      ensures NotBelow(r, heap, h, Parent(at))
    {
      assert NotBelow(slots, heap, h, at) && NotBelow(slots, heap, at, Parent(at));
      NotLessTrans(slots, heap[Parent(at)], heap[at], heap[h]);
      assert heap[h] != slot && heap[Parent(at)] != slot;
    }
  }
}
