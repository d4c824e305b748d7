/** Misra-Gries on plain maps: under-counting heavy hitters, and what survives any
    tree of updates and merges. */
module MisraGriesSpec {
  import opened Arithmetic
  import opened FiniteSets
  import opened KeyOrder
  import opened Streams
  import opened Sums

  type Counters = map<Key, nat>

  function Count(m: Counters, key: Key): nat {
    if key in m then m[key] else 0
  }

  ghost function Values(m: Counters): Key -> int {
    (k: Key) => Count(m, k)
  }

  ghost function Mass(m: Counters): int {
    Sum(m.Keys, Values(m))
  }

  /** Subtract `dec` from every counter and drop those that reach zero. */
  function Decrement(m: Counters, dec: nat): Counters {
    map k | k in m && m[k] > dec :: m[k] - dec
  }

  ghost function Under(m: Counters, d: nat): set<Key> {
    set k | k in m && m[k] < d
  }

  ghost function UpTo(m: Counters, d: nat): set<Key> {
    set k | k in m && m[k] <= d
  }

  /** `d` is the count at index `i` when the counts are listed in increasing order. */
  ghost predicate IsNthSmallest(m: Counters, i: nat, d: nat) {
    |Under(m, d)| <= i < |UpTo(m, d)|
  }

  ghost predicate IsMinimum(m: Counters, d: nat) {
    (exists k :: k in m && m[k] == d) && forall k :: k in m ==> d <= m[k]
  }

  function DecrementInsert(m: Counters, dec: nat, key: Key, weight: nat): Counters {
    if weight > dec then Decrement(m, dec)[key := weight - dec] else Decrement(m, dec)
  }

  /** One weighted update. */
  ghost predicate Added(capacity: nat, m: Counters, key: Key, weight: nat, r: Counters) {
    if key in m then r == m[key := m[key] + weight]
    else if |m| < capacity then r == m[key := weight]
    else exists min: nat :: IsMinimum(m, min) && r == DecrementInsert(m, if min < weight then min else weight, key, weight)
  }

  function Together(a: Counters, b: Counters): Counters {
    map k | k in a.Keys + b.Keys :: Count(a, k) + Count(b, k)
  }

  ghost predicate Trimmed(capacity: nat, m: Counters, r: Counters) {
    if |m| <= capacity then r == m
    else exists dec: nat :: IsNthSmallest(m, |m| - capacity - 1, dec) && r == Decrement(m, dec)
  }

  ghost predicate Combined(capacity: nat, a: Counters, b: Counters, r: Counters) {
    Trimmed(capacity, Together(a, b), r)
  }

  // --- determinism ---

  /** The count at an index is determined by the counters. */
  lemma {:induction false} NthSmallestUnique(m: Counters, i: nat, d: nat, e: nat)
    requires IsNthSmallest(m, i, d) && IsNthSmallest(m, i, e)
    ensures d == e
  {
    if d < e {
      SmallerSet(UpTo(m, d), Under(m, e));
    } else if e < d {
      SmallerSet(UpTo(m, e), Under(m, d));
    }
  }

  /** Both operations are functions of the counters. */
  lemma {:induction false} Deterministic(capacity: nat, m: Counters, key: Key, weight: nat, r: Counters, s: Counters)
    ensures Added(capacity, m, key, weight, r) && Added(capacity, m, key, weight, s) ==> r == s
    ensures Trimmed(capacity, m, r) && Trimmed(capacity, m, s) ==> r == s
  {
    if Trimmed(capacity, m, r) && Trimmed(capacity, m, s) && |m| > capacity {
      var d: nat :| IsNthSmallest(m, |m| - capacity - 1, d) && r == Decrement(m, d);
      var e: nat :| IsNthSmallest(m, |m| - capacity - 1, e) && s == Decrement(m, e);
      NthSmallestUnique(m, |m| - capacity - 1, d, e);
    }
  }

  ghost predicate Positive(m: Counters) {
    forall k :: k in m ==> 0 < m[k]
  }

  /** No counter is kept at zero. */
  lemma {:induction false} StaysPositive(capacity: nat, m: Counters, key: Key, weight: nat, r: Counters)
    requires Positive(m)
    ensures Added(capacity, m, key, weight, r) && 0 < weight ==> Positive(r)
    ensures Trimmed(capacity, m, r) ==> Positive(r)
  {
  }

  // --- mass removed by a decrement ---

  /** What a decrement takes from each counter. */
  ghost function Taken(m: Counters, dec: nat): Key -> int {
    (k: Key) => if Count(m, k) < dec then Count(m, k) else dec
  }

  lemma {:induction false} MassOver(m: Counters, s: set<Key>)
    requires m.Keys <= s
    ensures Sum(s, Values(m)) == Mass(m)
  {
    hide Sum;
    assert m.Keys + (s - m.Keys) == s;
    SumUnion(m.Keys, s - m.Keys, Values(m));
    SumZero(s - m.Keys, Values(m));
  }

  lemma {:induction false} MassSplit(m: Counters, dec: nat)
    ensures Mass(m) == Mass(Decrement(m, dec)) + Sum(m.Keys, Taken(m, dec))
  {
    hide Sum;
    MassOver(Decrement(m, dec), m.Keys);
    SumAdd(m.Keys, Values(Decrement(m, dec)), Taken(m, dec), Values(m));
  }

  /** At least `dec` is taken from every counter that holds as much. */
  lemma {:induction false} DecrementMass(m: Counters, dec: nat)
    ensures Mass(Decrement(m, dec)) + (|m| - |Under(m, dec)|) * dec <= Mass(m)
  {
    hide Sum;
    var low, rest := Under(m, dec), m.Keys - Under(m, dec);
    assert low + rest == m.Keys && |m.Keys| == |m|;
    MassSplit(m, dec);
    SumUnion(low, rest, Taken(m, dec));
    SumAtLeast(low, Taken(m, dec), 0);
    SumAtLeast(rest, Taken(m, dec), dec);
  }

  /** Exactly `dec` is taken from each when no counter is smaller. */
  lemma {:induction false} EvenDecrementMass(m: Counters, dec: nat)
    requires forall k :: k in m ==> dec <= m[k]
    ensures Mass(Decrement(m, dec)) == Mass(m) - |m| * dec
  {
    hide Sum;
    MassSplit(m, dec);
    SumAtLeast(m.Keys, Taken(m, dec), dec);
    SumAtMost(m.Keys, Taken(m, dec), dec);
    assert |m.Keys| == |m|;
  }

  lemma {:induction false} UpdateMass(m: Counters, key: Key, c: nat)
    ensures Mass(m[key := c]) == Mass(m) + c - Count(m, key)
  {
    hide Sum;
    var r, rest := m[key := c], m.Keys - {key};
    assert r.Keys == rest + {key};
    SumInsert(rest, Values(r), key);
    SumSame(rest, Values(r), Values(m));
    if key in m {
      SumRemove(m.Keys, Values(m), key);
    } else {
      assert rest == m.Keys;
    }
  }

  lemma {:induction false} TogetherMass(a: Counters, b: Counters)
    ensures Mass(Together(a, b)) == Mass(a) + Mass(b)
  {
    hide Sum;
    var keys := a.Keys + b.Keys;
    assert Together(a, b).Keys == keys;
    MassOver(a, keys);
    MassOver(b, keys);
    SumAdd(keys, Values(a), Values(b), Values(Together(a, b)));
  }

  // --- guarantees ---

  /** `(capacity + 1)` times an undercount fits in the weight that is no longer counted. */
  ghost predicate Fits(capacity: nat, under: int, lost: int) {
    (capacity + 1) * under <= lost
  }

  ghost predicate Undercounts(m: Counters, truth: Key -> nat) {
    forall k :: Count(m, k) <= truth(k)
  }

  ghost predicate ErrorsFit(capacity: nat, m: Counters, truth: Key -> nat, lost: int) {
    forall k :: Fits(capacity, truth(k) - Count(m, k), lost)
  }

  /** `m` is a sound summary of a stream of weight `n` with these exact counts. */
  ghost predicate Sound(capacity: nat, m: Counters, truth: Key -> nat, n: nat) {
    |m| <= capacity && Undercounts(m, truth) && ErrorsFit(capacity, m, truth, n - Mass(m))
  }

  lemma {:induction false} FitsTogether(capacity: nat, x: int, y: int, a: int, b: int)
    requires Fits(capacity, x, a) && Fits(capacity, y, b)
    ensures Fits(capacity, x + y, a + b)
  {
    assert (capacity + 1) * (x + y) == (capacity + 1) * x + (capacity + 1) * y;
  }

  lemma {:induction false} FitsMore(capacity: nat, x: int, y: int, a: int)
    requires Fits(capacity, y, a) && x <= y
    ensures Fits(capacity, x, a)
  {
    assert (capacity + 1) * (y - x) == (capacity + 1) * y - (capacity + 1) * x;
    assert (capacity + 1) * (y - x) >= 0;
  }

  /** When every undercount grows by at most `dec` and at least `capacity + 1` times
      `dec` leaves the counters, the errors still fit. */
  lemma {:induction false} ErrorsStillFit(capacity: nat, m: Counters, truth: Key -> nat, lost: int,
                                          r: Counters, after: Key -> nat, lostAfter: int, dec: nat)
    requires ErrorsFit(capacity, m, truth, lost) && Fits(capacity, dec, lostAfter - lost)
    requires forall k :: after(k) - Count(r, k) <= truth(k) - Count(m, k) + dec
    ensures ErrorsFit(capacity, r, after, lostAfter)
  {
    hide Fits;
    forall k
      ensures Fits(capacity, after(k) - Count(r, k), lostAfter)
    {
      FitsTogether(capacity, truth(k) - Count(m, k), dec, lost, lostAfter - lost);
      FitsMore(capacity, after(k) - Count(r, k), truth(k) - Count(m, k) + dec, lostAfter);
    }
  }

  /** The stream after one more update. */
  ghost predicate Extends(before: Key -> nat, after: Key -> nat, key: Key, weight: nat) {
    && after(key) == before(key) + weight
    && forall k :: k != key ==> after(k) == before(k)
  }

  lemma {:induction false} NothingFits(capacity: nat)
    ensures Fits(capacity, 0, 0)
  {
  }

  lemma {:induction false} AddCounted(capacity: nat, m: Counters, key: Key, weight: nat,
                                      truth: Key -> nat, after: Key -> nat, n: nat)
    requires Sound(capacity, m, truth, n) && Extends(truth, after, key, weight) && (key in m || |m| < capacity)
    ensures Sound(capacity, m[key := Count(m, key) + weight], after, n + weight)
  {
    hide Mass, Fits, ErrorsFit;
    var r := m[key := Count(m, key) + weight];
    UpdateMass(m, key, Count(m, key) + weight);
    NothingFits(capacity);
    assert r.Keys == m.Keys + {key} && |r| == |r.Keys| && |m| == |m.Keys|;
    assert key in m ==> r.Keys == m.Keys;
    ErrorsStillFit(capacity, m, truth, n - Mass(m), r, after, n + weight - Mass(r), 0);
  }

  lemma {:induction false} DecrementSize(m: Counters, dec: nat)
    ensures |Decrement(m, dec)| == |m| - |UpTo(m, dec)|
  {
    assert Decrement(m, dec).Keys == m.Keys - UpTo(m, dec);
    assert |m.Keys| == |m| && |Decrement(m, dec)| == |Decrement(m, dec).Keys|;
    assert m.Keys == Decrement(m, dec).Keys + UpTo(m, dec);
  }

  lemma {:induction false} InsertSize(m: Counters, key: Key, c: nat)
    ensures |m[key := c]| <= |m| + 1
  {
    assert m[key := c].Keys == m.Keys + {key} && |m| == |m.Keys| && |m[key := c]| == |m[key := c].Keys|;
  }

  /** The minimum counter goes when the newcomer is at least as heavy. */
  lemma {:induction false} MinimumGoes(m: Counters, min: nat)
    requires IsMinimum(m, min)
    ensures |Decrement(m, min)| < |m|
  {
    var k :| k in m && m[k] == min;
    assert k in UpTo(m, min);
    DecrementSize(m, min);
  }

  lemma {:induction false} AddFullMass(capacity: nat, m: Counters, key: Key, weight: nat, dec: nat)
    requires key !in m && |m| == capacity && dec <= weight && forall k :: k in m ==> dec <= m[k]
    ensures weight - Mass(DecrementInsert(m, dec, key, weight)) == (capacity + 1) * dec - Mass(m)
  {
    hide Mass;
    EvenDecrementMass(m, dec);
    if weight > dec {
      UpdateMass(Decrement(m, dec), key, weight - dec);
    }
    assert (capacity + 1) * dec == capacity * dec + dec;
  }

  lemma {:induction false} AddFullSize(m: Counters, min: nat, key: Key, weight: nat)
    requires IsMinimum(m, min)
    ensures |DecrementInsert(m, if min < weight then min else weight, key, weight)| <= |m|
  {
    hide Decrement;
    if min < weight {
      MinimumGoes(m, min);
      InsertSize(Decrement(m, min), key, weight - min);
    } else {
      DecrementSize(m, weight);
    }
  }

  lemma {:induction false} AddFull(capacity: nat, m: Counters, min: nat, key: Key, weight: nat,
                                   truth: Key -> nat, after: Key -> nat, n: nat)
    requires Sound(capacity, m, truth, n) && Extends(truth, after, key, weight)
    requires key !in m && |m| == capacity && IsMinimum(m, min)
    ensures var dec := if min < weight then min else weight;
      Sound(capacity, DecrementInsert(m, dec, key, weight), after, n + weight)
  {
    hide Mass, ErrorsFit, IsMinimum;
    var dec := if min < weight then min else weight;
    var r := DecrementInsert(m, dec, key, weight);
    assert forall k :: k in m ==> dec <= m[k] by { MinimumBound(m, min, dec); }
    AddFullMass(capacity, m, key, weight, dec);
    AddFullSize(m, min, key, weight);
    ErrorsStillFit(capacity, m, truth, n - Mass(m), r, after, n + weight - Mass(r), dec);
  }

  lemma {:induction false} MinimumBound(m: Counters, min: nat, dec: nat)
    requires IsMinimum(m, min) && dec <= min
    ensures forall k :: k in m ==> dec <= m[k]
  {
  }

  lemma {:induction false} AddIsSound(capacity: nat, m: Counters, key: Key, weight: nat, r: Counters,
                                      truth: Key -> nat, after: Key -> nat, n: nat)
    requires Sound(capacity, m, truth, n) && Extends(truth, after, key, weight) && Added(capacity, m, key, weight, r)
    ensures Sound(capacity, r, after, n + weight)
  {
    hide Sound, Extends, DecrementInsert, IsMinimum;
    if key in m || |m| < capacity {
      AddCounted(capacity, m, key, weight, truth, after, n);
    } else {
      SoundSize(capacity, m, truth, n);
      var min: nat :| IsMinimum(m, min) && r == DecrementInsert(m, if min < weight then min else weight, key, weight);
      AddFull(capacity, m, min, key, weight, truth, after, n);
    }
  }

  lemma {:induction false} SoundSize(capacity: nat, m: Counters, truth: Key -> nat, n: nat)
    requires Sound(capacity, m, truth, n)
    ensures |m| <= capacity
  {
  }

  ghost predicate Adds(ta: Key -> nat, tb: Key -> nat, both: Key -> nat) {
    forall k :: both(k) == ta(k) + tb(k)
  }

  /** One pass of the trim is enough: it brings the size down to the capacity and
      takes at least `capacity + 1` times `dec` from the counters. */
  lemma {:induction false} OnePassTrims(capacity: nat, m: Counters, dec: nat)
    requires |m| > capacity && IsNthSmallest(m, |m| - capacity - 1, dec)
    ensures |Decrement(m, dec)| <= capacity
    ensures Fits(capacity, dec, Mass(m) - Mass(Decrement(m, dec)))
  {
    hide Mass, Decrement;
    DecrementSize(m, dec);
    DecrementMass(m, dec);
    MulMonotone(capacity + 1, |m| - |Under(m, dec)|, dec);
  }

  lemma {:induction false} TrimIsSound(capacity: nat, m: Counters, truth: Key -> nat, n: nat, r: Counters)
    requires Undercounts(m, truth) && ErrorsFit(capacity, m, truth, n - Mass(m)) && Trimmed(capacity, m, r)
    ensures Sound(capacity, r, truth, n)
  {
    hide Mass, Fits, ErrorsFit, IsNthSmallest;
    if |m| > capacity {
      var dec: nat :| IsNthSmallest(m, |m| - capacity - 1, dec) && r == Decrement(m, dec);
      OnePassTrims(capacity, m, dec);
      ErrorsStillFit(capacity, m, truth, n - Mass(m), r, truth, n - Mass(r), dec);
    }
  }

  lemma {:induction false} TogetherFits(capacity: nat, a: Counters, b: Counters, ta: Key -> nat, tb: Key -> nat,
                                        both: Key -> nat, la: int, lb: int)
    requires ErrorsFit(capacity, a, ta, la) && ErrorsFit(capacity, b, tb, lb) && Adds(ta, tb, both)
    ensures ErrorsFit(capacity, Together(a, b), both, la + lb)
  {
    hide Fits;
    forall k
      ensures Fits(capacity, both(k) - Count(Together(a, b), k), la + lb)
    {
      FitsTogether(capacity, ta(k) - Count(a, k), tb(k) - Count(b, k), la, lb);
    }
  }

  lemma {:induction false} TogetherUndercounts(a: Counters, b: Counters, ta: Key -> nat, tb: Key -> nat, both: Key -> nat)
    requires Undercounts(a, ta) && Undercounts(b, tb) && Adds(ta, tb, both)
    ensures Undercounts(Together(a, b), both)
  {
    forall k
      ensures Count(Together(a, b), k) <= both(k)
    {
      assert Count(a, k) <= ta(k) && Count(b, k) <= tb(k);
    }
  }

  lemma {:induction false} MergeIsSound(capacity: nat, a: Counters, b: Counters, r: Counters,
                                        ta: Key -> nat, tb: Key -> nat, both: Key -> nat, na: nat, nb: nat)
    requires Sound(capacity, a, ta, na) && Sound(capacity, b, tb, nb) && Adds(ta, tb, both)
    requires Combined(capacity, a, b, r)
    ensures Sound(capacity, r, both, na + nb)
  {
    hide Mass, ErrorsFit, Trimmed, Undercounts, Together, Adds;
    TogetherMass(a, b);
    TogetherUndercounts(a, b, ta, tb, both);
    TogetherFits(capacity, a, b, ta, tb, both, na - Mass(a), nb - Mass(b));
    TrimIsSound(capacity, Together(a, b), both, na + nb, r);
  }

  // --- any tree of updates and merges ---

  /** `m` is what some run of the operations in `h` leaves. */
  ghost predicate Summarizes(capacity: nat, h: History, m: Counters) {
    match h
    case Fresh => m == map[]
    case Updated(before, key, weight) =>
      exists b :: Summarizes(capacity, before, b) && Added(capacity, b, key, weight, m)
    case Merged(left, right) =>
      exists a, b :: Summarizes(capacity, left, a) && Summarizes(capacity, right, b) && Combined(capacity, a, b, m)
  }

  lemma {:induction false} LeastExists(m: Counters, keys: set<Key>) returns (key: Key)
    requires keys != {} && keys <= m.Keys
    ensures key in keys && forall k :: k in keys ==> m[key] <= m[k]
    decreases |keys|
  {
    key :| key in keys;
    if keys != {key} {
      assert |keys - {key}| < |keys|;
      var least := LeastExists(m, keys - {key});
      key := if m[least] < m[key] then least else key;
    }
  }

  lemma {:induction false} NthFound(m: Counters, taken: set<Key>, least: Key)
    requires taken <= m.Keys && least in m && least !in taken
    requires forall k :: k in taken ==> m[k] <= m[least]
    requires forall k :: k in m && k !in taken ==> m[least] <= m[k]
    ensures IsNthSmallest(m, |taken|, m[least])
  {
    SmallerSet(Under(m, m[least]), taken);
    SmallerSet(taken + {least}, UpTo(m, m[least]));
  }

  lemma {:induction false} SomeLeft(all: set<Key>, taken: set<Key>)
    requires |taken| < |all|
    ensures all - taken != {}
  {
    if all - taken == {} {
      assert all <= all - taken + taken;
      SmallerSet(all, taken);
      assert false;
    }
  }

  lemma {:induction false} NthExists(m: Counters, i: nat) returns (taken: set<Key>, least: Key)
    requires i < |m|
    ensures taken <= m.Keys && |taken| == i && least in m && least !in taken
    ensures forall k :: k in taken ==> m[k] <= m[least]
    ensures forall k :: k in m && k !in taken ==> m[least] <= m[k]
    ensures IsNthSmallest(m, i, m[least])
  {
    hide IsNthSmallest;
    if i == 0 {
      taken := {};
      SomeLeft(m.Keys, taken);
      least := LeastExists(m, m.Keys);
    } else {
      var t, l := NthExists(m, i - 1);
      taken := t + {l};
      SomeLeft(m.Keys, taken);
      least := LeastExists(m, m.Keys - taken);
      assert m[l] <= m[least];
    }
    NthFound(m, taken, least);
  }

  lemma {:induction false} AddedExists(capacity: nat, m: Counters, key: Key, weight: nat) returns (r: Counters)
    requires 0 < capacity
    ensures Added(capacity, m, key, weight, r)
  {
    hide DecrementInsert;
    if key in m {
      r := m[key := m[key] + weight];
    } else if |m| < capacity {
      r := m[key := weight];
    } else {
      SomeLeft(m.Keys, {});
      var least := LeastExists(m, m.Keys);
      var min := m[least];
      assert IsMinimum(m, min);
      r := DecrementInsert(m, if min < weight then min else weight, key, weight);
    }
  }

  lemma {:induction false} TrimmedExists(capacity: nat, m: Counters) returns (r: Counters)
    ensures Trimmed(capacity, m, r)
  {
    if |m| <= capacity {
      r := m;
    } else {
      var _, least := NthExists(m, |m| - capacity - 1);
      r := Decrement(m, m[least]);
    }
  }

  /** Every tree of updates and merges leaves a summary, and only one. */
  lemma {:induction false} SummaryExists(capacity: nat, h: History) returns (m: Counters)
    requires 0 < capacity
    ensures Summarizes(capacity, h, m)
    ensures forall r :: Summarizes(capacity, h, r) ==> r == m
    decreases h
  {
    hide Added, Trimmed;
    match h
    case Fresh => m := map[];
    case Updated(before, key, weight) =>
      var b := SummaryExists(capacity, before);
      m := AddedExists(capacity, b, key, weight);
      forall r | Summarizes(capacity, h, r)
        ensures r == m
      {
        var c :| Summarizes(capacity, before, c) && Added(capacity, c, key, weight, r);
        Deterministic(capacity, b, key, weight, m, r);
      }
    case Merged(left, right) =>
      var a := SummaryExists(capacity, left);
      var b := SummaryExists(capacity, right);
      m := TrimmedExists(capacity, Together(a, b));
      assert Combined(capacity, a, b, m);
      forall r | Summarizes(capacity, h, r)
        ensures r == m
      {
        var c, d :| Summarizes(capacity, left, c) && Summarizes(capacity, right, d) && Combined(capacity, c, d, r);
        Deterministic(capacity, Together(a, b), [], 0, m, r);
      }
  }

  lemma {:induction false} EmptyIsSound(capacity: nat)
    ensures Sound(capacity, map[], TruthOf(Fresh), 0)
  {
  }

  /** Over any tree of updates and merges, no key is over-counted, and `capacity + 1`
      times any undercount is at most the weight that no counter holds any more. */
  lemma {:induction false} TreeIsSound(capacity: nat, h: History, m: Counters)
    requires Summarizes(capacity, h, m)
    ensures Sound(capacity, m, TruthOf(h), Weight(h))
    decreases h
  {
    hide Sound, Added, Combined;
    match h
    case Fresh => EmptyIsSound(capacity);
    case Updated(before, key, weight) =>
      var b :| Summarizes(capacity, before, b) && Added(capacity, b, key, weight, m);
      TreeIsSound(capacity, before, b);
      AddIsSound(capacity, b, key, weight, m, TruthOf(before), TruthOf(h), Weight(before));
    case Merged(left, right) =>
      var a, b :| Summarizes(capacity, left, a) && Summarizes(capacity, right, b) && Combined(capacity, a, b, m);
      TreeIsSound(capacity, left, a);
      TreeIsSound(capacity, right, b);
      MergeIsSound(capacity, a, b, m, TruthOf(left), TruthOf(right), TruthOf(h), Weight(left), Weight(right));
  }

  /** The promise of the sketch: `count <= truth` and `(capacity + 1) * (truth - count) <= N`,
      so a key heavier than its share is present. */
  lemma {:induction false} HeavyKeysArePresent(capacity: nat, h: History, m: Counters, key: Key)
    requires Summarizes(capacity, h, m)
    ensures |m| <= capacity
    ensures Count(m, key) <= Truth(h, key) && (capacity + 1) * (Truth(h, key) - Count(m, key)) <= Weight(h)
    ensures Truth(h, key) * (capacity + 1) > Weight(h) ==> key in m
  {
    hide Summarizes, Sum, Truth, Weight, Fits;
    TreeIsSound(capacity, h, m);
    SumAtLeast(m.Keys, Values(m), 0);
    assert Fits(capacity, TruthOf(h)(key) - Count(m, key), Weight(h) - Mass(m));
    WithinShare(capacity, Truth(h, key), Count(m, key), Weight(h), Mass(m));
  }

  lemma {:induction false} WithinShare(capacity: nat, truth: nat, count: nat, n: nat, mass: int)
    requires Fits(capacity, truth - count, n - mass) && 0 <= mass
    ensures (capacity + 1) * (truth - count) <= n
    ensures truth * (capacity + 1) > n ==> 0 < count
  {
    if count == 0 {
      assert truth * (capacity + 1) == (capacity + 1) * truth;
    }
  }
}

/** The sketch object: its methods realize the operations above. */
module MisraGriesSketch {
  import opened HashSpecs
  import opened KeyOrder
  import opened MisraGriesSpec

  /** A key with the least count among some keys. */
  method LeastAmong(m: Counters, keys: set<Key>) returns (key: Key)
    requires keys != {} && keys <= m.Keys
    ensures key in keys && forall k :: k in keys ==> m[key] <= m[k]
  {
    key :| key in keys;
    var rest := keys - {key};
    while rest != {}
      invariant key in keys && rest <= keys
      invariant forall k :: k in keys && k !in rest ==> m[key] <= m[k]
      decreases |rest|
    {
      var k :| k in rest;
      if m[k] < m[key] {
        key := k;
      }
      rest := rest - {k};
    }
  }

  /** The entry at index `i` of the sorted counts, taken one smallest at a time. */
  method NthSmallest(m: Counters, i: nat) returns (d: nat)
    requires i < |m|
    ensures IsNthSmallest(m, i, d)
  {
    hide IsNthSmallest;
    var taken: set<Key> := {};
    SomeLeft(m.Keys, taken);
    var least := LeastAmong(m, m.Keys - taken);
    while |taken| < i
      invariant taken <= m.Keys && |taken| <= i && least in m && least !in taken
      invariant forall k :: k in taken ==> m[k] <= m[least]
      invariant forall k :: k in m && k !in taken ==> m[least] <= m[k]
      decreases i - |taken|
    {
      taken := taken + {least};
      SomeLeft(m.Keys, taken);
      var next := LeastAmong(m, m.Keys - taken);
      assert m[least] <= m[next];
      least := next;
    }
    NthFound(m, taken, least);
    d := m[least];
  }

  /** Adding in one more counter of the other sketch. */
  lemma {:induction false} TogetherStep(a: Counters, b: Counters, rest: set<Key>, k: Key)
    requires k in rest && rest <= b.Keys
    ensures var sum := Together(a, b - rest);
      sum[k := Count(sum, k) + b[k]] == Together(a, b - (rest - {k}))
  {
  }

  lemma {:induction false} TogetherNothing(a: Counters, b: Counters)
    ensures Together(a, b - b.Keys) == a && b - {} == b
  {
  }

  class MisraGries {
    const capacity: nat
    const hashSpec: HashSpec
    var counters: Counters
    var totalWeight: nat
    var updates: nat

    ghost predicate Valid()
      reads this
    {
      0 < capacity && |counters| <= capacity
    }

    constructor (capacity: nat, hashSpec: HashSpec)
      requires 0 < capacity
      ensures Valid() && counters == map[] && totalWeight == 0 && updates == 0
      ensures this.capacity == capacity && this.hashSpec == hashSpec
    {
      this.capacity, this.hashSpec := capacity, hashSpec;
      counters, totalWeight, updates := map[], 0, 0;
    }

    method Add(key: Key, weight: nat)
      requires Valid()
      modifies this
      ensures Valid() && Added(capacity, old(counters), key, weight, counters)
      ensures totalWeight == old(totalWeight) + weight && updates == old(updates) + 1
    {
      totalWeight, updates := totalWeight + weight, updates + 1;
      if key in counters {
        counters := counters[key := counters[key] + weight];
        return;
      }
      if |counters| < capacity {
        InsertSize(counters, key, weight);
        counters := counters[key := weight];
        return;
      }
      ghost var before := counters;
      var least := LeastAmong(counters, counters.Keys);
      var min := counters[least];
      var dec := if min < weight then min else weight;
      assert IsMinimum(before, min);
      AddFullSize(before, min, key, weight);
      DecrementSize(before, dec);
      counters := Decrement(counters, dec);
      var leftover := weight - dec;
      if leftover > 0 {
        MinimumGoes(before, min);
      }
      if leftover > 0 && |counters| < capacity {
        counters := counters[key := leftover];
      }
      assert counters == DecrementInsert(before, if min < weight then min else weight, key, weight);
    }

    method TrimToCapacity()
      requires 0 < capacity
      modifies this`counters
      ensures Valid() && Trimmed(capacity, old(counters), counters)
    {
      while |counters| > capacity
        invariant |counters| > capacity ==> counters == old(counters)
        invariant |counters| <= capacity ==> Trimmed(capacity, old(counters), counters)
        decreases |counters|
      {
        var excess := |counters| - capacity;
        var dec := NthSmallest(counters, excess - 1);
        OnePassTrims(capacity, counters, dec);
        counters := Decrement(counters, dec);
      }
    }

    method AddCounters(theirs: Counters)
      modifies this`counters
      ensures counters == Together(old(counters), theirs)
    {
      hide Together, Count;
      var rest := theirs.Keys;
      TogetherNothing(counters, theirs);
      while rest != {}
        invariant rest <= theirs.Keys
        invariant counters == Together(old(counters), theirs - rest)
        decreases |rest|
      {
        var k :| k in rest;
        TogetherStep(old(counters), theirs, rest, k);
        counters := counters[k := Count(counters, k) + theirs[k]];
        rest := rest - {k};
      }
    }

    /** Merging another sketch of the same capacity and hash; anything else is refused. */
    method MergeFrom(other: MisraGries) returns (ok: bool)
      requires Valid() && other.Valid() && other != this
      modifies this
      ensures Valid() && (ok <==> other.capacity == capacity && other.hashSpec == hashSpec)
      ensures ok ==> Combined(capacity, old(counters), other.counters, counters)
      ensures !ok ==> counters == old(counters)
      ensures totalWeight == old(totalWeight) + (if ok then other.totalWeight else 0)
      ensures updates == old(updates) + (if ok then other.updates else 0)
    {
      hide Trimmed, Together;
      ok := other.capacity == capacity && other.hashSpec == hashSpec;
      if ok {
        AddCounters(other.counters);
        TrimToCapacity();
        totalWeight, updates := totalWeight + other.totalWeight, updates + other.updates;
      }
    }
  }
}
