/** The arena behind a SpaceSaving summary, as values: slots that own the keys, a
    digest index into them and a binary min-heap of slot numbers. */
module SpaceSavingArena {
  import opened KeyOrder
  import opened SpaceSavingSpec

  datatype Slot = Slot(key: Key, digest: nat, entry: Entry, heapIndex: nat)

  datatype IndexBucket = One(slot: nat) | Many(members: seq<nat>)

  function Listed(b: IndexBucket): seq<nat> {
    match b
    case One(slot) => [slot]
    case Many(members) => members
  }

  // --- the slots ---

  ghost predicate DistinctKeys(slots: seq<Slot>) {
    forall a, b :: 0 <= a < b < |slots| ==> slots[a].key != slots[b].key
  }

  /** The plain map the arena stands for. */
  ghost function Contents(slots: seq<Slot>): (m: Tracked)
    requires DistinctKeys(slots)
    ensures forall i :: 0 <= i < |slots| ==> slots[i].key in m && m[slots[i].key] == slots[i].entry
    ensures forall k :: k in m ==> exists i :: 0 <= i < |slots| && slots[i].key == k
  {
    map i | 0 <= i < |slots| :: slots[i].key := slots[i].entry
  }

  ghost predicate Digested(slots: seq<Slot>, digest: Key -> nat) {
    forall i :: 0 <= i < |slots| ==> slots[i].digest == digest(slots[i].key)
  }

  /** Same keys, digests and entries; heap positions may differ. */
  ghost predicate SameCores(a: seq<Slot>, b: seq<Slot>) {
    |a| == |b| && forall i :: 0 <= i < |a| ==> a[i].(heapIndex := 0) == b[i].(heapIndex := 0)
  }

  lemma {:induction false} SameContents(a: seq<Slot>, b: seq<Slot>)
    requires SameCores(a, b) && DistinctKeys(a)
    ensures DistinctKeys(b) && Contents(a) == Contents(b)
  {
    assert forall i :: 0 <= i < |a| ==> a[i].key == b[i].key && a[i].entry == b[i].entry;
    assert forall k :: k in Contents(a) <==> k in Contents(b);
  }

  /** Without its last slot an arena stands for the map without that key. */
  lemma {:induction false} ContentsInit(slots: seq<Slot>)
    requires DistinctKeys(slots) && slots != []
    ensures var init, last := slots[..|slots| - 1], slots[|slots| - 1];
      && DistinctKeys(init) && last.key !in Contents(init)
      && Contents(slots).Keys == Contents(init).Keys + {last.key}
  {
    hide Contents;
    var init, last := slots[..|slots| - 1], slots[|slots| - 1];
    forall k | k in Contents(slots)
      ensures k in Contents(init) || k == last.key
    {
      var i :| 0 <= i < |slots| && slots[i].key == k;
      assert i < |init| ==> init[i].key == k;
    }
    forall k | k in Contents(init)
      ensures k in Contents(slots) && k != last.key
    {
      var i :| 0 <= i < |init| && init[i].key == k;
      assert slots[i].key == k;
    }
  }

  lemma {:induction false} ContentsSize(slots: seq<Slot>)
    requires DistinctKeys(slots)
    ensures |Contents(slots)| == |slots|
  {
    hide Contents;
    if slots == [] {
      assert Contents(slots).Keys == {};
    } else {
      var init := slots[..|slots| - 1];
      ContentsInit(slots);
      ContentsSize(init);
      assert |Contents(slots)| == |Contents(slots).Keys| && |Contents(init)| == |Contents(init).Keys|;
    }
  }

  // --- the digest index ---

  ghost predicate NoRepeats(s: seq<nat>) {
    forall i, j :: 0 <= i < j < |s| ==> s[i] != s[j]
  }

  /** A bucket lists exactly the slots with its digest, inline when there is one. */
  ghost predicate BucketOk(slots: seq<Slot>, d: nat, b: IndexBucket) {
    && NoRepeats(Listed(b))
    && (b.Many? ==> |b.members| >= 2)
    && (forall x :: x in Listed(b) <==> 0 <= x < |slots| && slots[x].digest == d)
  }

  ghost predicate IndexOk(slots: seq<Slot>, index: map<nat, IndexBucket>) {
    && (forall d :: d in index ==> BucketOk(slots, d, index[d]))
    && (forall i :: 0 <= i < |slots| ==> slots[i].digest in index)
  }

  /** The index when slot `hole` is not listed. */
  ghost predicate IndexWithout(slots: seq<Slot>, index: map<nat, IndexBucket>, hole: nat) {
    && (forall d :: d in index ==>
          && NoRepeats(Listed(index[d])) && (index[d].Many? ==> |index[d].members| >= 2) && Listed(index[d]) != []
          && (forall x :: x in Listed(index[d]) <==> 0 <= x < |slots| && x != hole && slots[x].digest == d))
    && (forall i :: 0 <= i < |slots| && i != hole ==> slots[i].digest in index)
  }

  // --- the heap ---

  predicate SlotLess(slots: seq<Slot>, a: nat, b: nat)
    requires a < |slots| && b < |slots|
  {
    Precedes(slots[a].entry.count, slots[a].digest, slots[a].key, slots[b].entry.count, slots[b].digest, slots[b].key)
  }

  /** Heap and slots point at each other. */
  ghost predicate Linked(slots: seq<Slot>, heap: seq<nat>) {
    && |heap| == |slots|
    && (forall h :: 0 <= h < |heap| ==> heap[h] < |slots| && slots[heap[h]].heapIndex == h)
    && (forall s :: 0 <= s < |slots| ==> slots[s].heapIndex < |heap| && heap[slots[s].heapIndex] == s)
  }

  function Parent(h: nat): nat
    requires 0 < h
  {
    (h - 1) / 2
  }

  /** Heap position `h` does not sort below position `p`. */
  ghost predicate NotBelow(slots: seq<Slot>, heap: seq<nat>, h: nat, p: nat)
    requires Linked(slots, heap)
  {
    h < |heap| && p < |heap| ==> !SlotLess(slots, heap[h], heap[p])
  }

  ghost predicate HeapOrdered(slots: seq<Slot>, heap: seq<nat>)
    requires Linked(slots, heap)
  {
    forall h :: 0 < h < |heap| ==> NotBelow(slots, heap, h, Parent(h))
  }

  /** Ordered, except that position `at` may sort below its parent. */
  ghost predicate OrderedAbove(slots: seq<Slot>, heap: seq<nat>, at: nat)
    requires Linked(slots, heap)
  {
    && (forall h :: 0 < h < |heap| && h != at ==> NotBelow(slots, heap, h, Parent(h)))
    && (forall h :: 0 < h < |heap| && Parent(h) == at && 0 < at ==> NotBelow(slots, heap, h, Parent(at)))
  }

  /** Ordered, except that children of `at` may sort below it. */
  ghost predicate OrderedBelow(slots: seq<Slot>, heap: seq<nat>, at: nat)
    requires Linked(slots, heap)
  {
    && (forall h :: 0 < h < |heap| && Parent(h) != at ==> NotBelow(slots, heap, h, Parent(h)))
    && (forall h :: 0 < h < |heap| && Parent(h) == at && 0 < at ==> NotBelow(slots, heap, h, Parent(at)))
  }

  /** Not sorting below is transitive. */
  lemma {:induction false} NotLessTrans(slots: seq<Slot>, a: nat, b: nat, c: nat)
    requires a < |slots| && b < |slots| && c < |slots|
    requires !SlotLess(slots, b, a) && !SlotLess(slots, c, b)
    ensures !SlotLess(slots, c, a)
  {
    var x, y, z := slots[a], slots[b], slots[c];
    PrecedesIsOrder(x.entry.count, x.digest, x.key, y.entry.count, y.digest, y.key, z.entry.count, z.digest, z.key);
    PrecedesIsOrder(y.entry.count, y.digest, y.key, z.entry.count, z.digest, z.key, x.entry.count, x.digest, x.key);
    PrecedesIsOrder(z.entry.count, z.digest, z.key, x.entry.count, x.digest, x.key, y.entry.count, y.digest, y.key);
  }

  lemma {:induction false} LessIsNotMore(slots: seq<Slot>, a: nat, b: nat)
    requires a < |slots| && b < |slots| && SlotLess(slots, a, b)
    ensures !SlotLess(slots, b, a)
  {
    var x, y := slots[a], slots[b];
    PrecedesIsOrder(x.entry.count, x.digest, x.key, y.entry.count, y.digest, y.key, 0, 0, []);
  }

  lemma {:induction false} SelfNotLess(slots: seq<Slot>, a: nat)
    requires a < |slots|
    ensures !SlotLess(slots, a, a)
  {
    var x := slots[a];
    PrecedesIsOrder(x.entry.count, x.digest, x.key, x.entry.count, x.digest, x.key, 0, 0, []);
  }

  /** No slot sorts below the root of an ordered heap. */
  lemma {:induction false} RootIsLeast(slots: seq<Slot>, heap: seq<nat>, h: nat)
    requires Linked(slots, heap) && HeapOrdered(slots, heap) && h < |heap|
    ensures !SlotLess(slots, heap[h], heap[0])
    decreases h
  {
    if h == 0 {
      SelfNotLess(slots, heap[0]);
    } else {
      RootIsLeast(slots, heap, Parent(h));
      assert NotBelow(slots, heap, h, Parent(h));
      NotLessTrans(slots, heap[0], heap[Parent(h)], heap[h]);
    }
  }

  /** The root holds the one key that eviction must remove. */
  lemma {:induction false} RootIsMinKey(slots: seq<Slot>, heap: seq<nat>, digest: Key -> nat)
    requires Linked(slots, heap) && HeapOrdered(slots, heap) && slots != []
    requires DistinctKeys(slots) && Digested(slots, digest)
    ensures Contents(slots) != map[] && MinKey(Contents(slots), digest) == slots[heap[0]].key
  {
    hide Contents;
    var m, root := Contents(slots), slots[heap[0]];
    forall k | k in m && k != root.key
      ensures EvictsBefore(m, digest, root.key, k)
    {
      var s :| 0 <= s < |slots| && slots[s].key == k;
      RootIsLeast(slots, heap, slots[s].heapIndex);
      PrecedesIsOrder(root.entry.count, root.digest, root.key, slots[s].entry.count, slots[s].digest, k, 0, 0, []);
    }
    assert root.key in m;
    MinKeyUnique(m, digest, MinKey(m, digest), root.key);
  }

  // --- swapping two heap positions ---

  function Swapped(heap: seq<nat>, a: nat, b: nat): seq<nat>
    requires a < |heap| && b < |heap|
  {
    heap[a := heap[b]][b := heap[a]]
  }

  /** Sifting up one level. */
  lemma {:induction false} SiftedUp(slots: seq<Slot>, heap: seq<nat>, after: seq<Slot>, at: nat)
    requires Linked(slots, heap) && OrderedAbove(slots, heap, at) && 0 < at < |heap|
    requires SlotLess(slots, heap[at], heap[Parent(at)])
    requires SameCores(slots, after) && Linked(after, Swapped(heap, at, Parent(at)))
    ensures OrderedAbove(after, Swapped(heap, at, Parent(at)), Parent(at))
  {
    var p, next := Parent(at), Swapped(heap, at, Parent(at));
    assert forall a, b :: 0 <= a < |slots| && 0 <= b < |slots| ==> SlotLess(after, a, b) == SlotLess(slots, a, b);
    LessIsNotMore(slots, heap[at], heap[p]);
    forall h | 0 < h < |heap| && h != p
      ensures NotBelow(after, next, h, Parent(h))
    {
      if h != at && Parent(h) == p {
        assert NotBelow(slots, heap, h, p);
        NotLessTrans(slots, heap[at], heap[p], heap[h]);
      } else if Parent(h) == at {
        assert NotBelow(slots, heap, h, Parent(at));
      } else if h != at {
        assert NotBelow(slots, heap, h, Parent(h));
      }
    }
    forall h | 0 < h < |heap| && Parent(h) == p && 0 < p
      ensures NotBelow(after, next, h, Parent(p))
    {
      assert NotBelow(slots, heap, p, Parent(p));
      if h != at {
        assert NotBelow(slots, heap, h, p);
        NotLessTrans(slots, heap[Parent(p)], heap[p], heap[h]);
      }
    }
  }

  /** Sifting down one level, towards the smallest child. */
  lemma {:induction false} SiftedDown(slots: seq<Slot>, heap: seq<nat>, after: seq<Slot>, at: nat, child: nat)
    requires Linked(slots, heap) && OrderedBelow(slots, heap, at) && 0 < child < |heap| && Parent(child) == at
    requires SlotLess(slots, heap[child], heap[at])
    requires forall h :: 0 < h < |heap| && Parent(h) == at ==> NotBelow(slots, heap, h, child)
    requires SameCores(slots, after) && Linked(after, Swapped(heap, at, child))
    ensures OrderedBelow(after, Swapped(heap, at, child), child)
  {
    var next := Swapped(heap, at, child);
    assert forall a, b :: 0 <= a < |slots| && 0 <= b < |slots| ==> SlotLess(after, a, b) == SlotLess(slots, a, b);
    LessIsNotMore(slots, heap[child], heap[at]);
    forall h | 0 < h < |heap| && Parent(h) != child
      ensures NotBelow(after, next, h, Parent(h))
    {
      if Parent(h) == at {
        assert NotBelow(slots, heap, h, child);
      } else if h == at {
        assert NotBelow(slots, heap, child, Parent(at));
      } else {
        assert NotBelow(slots, heap, h, Parent(h));
      }
    }
    forall h | 0 < h < |heap| && Parent(h) == child
      ensures NotBelow(after, next, h, at)
    {
      assert NotBelow(slots, heap, h, child);
    }
  }
}
