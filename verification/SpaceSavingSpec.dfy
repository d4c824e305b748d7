/** SpaceSaving as a function on plain maps: what `add` and `merge_from` do to the
    tracked keys, and the guarantees that survive any tree of them. */
module SpaceSavingSpec {
  import opened Arithmetic
  import opened FiniteSets
  import opened KeyOrder
  import opened Streams
  import opened Sums

  datatype Entry = Entry(count: nat, error: nat)

  type Tracked = map<Key, Entry>

  /** Eviction order: smaller count, then smaller digest, then smaller key. */
  predicate Precedes(ca: nat, da: nat, a: Key, cb: nat, db: nat, b: Key) {
    if ca != cb then ca < cb else if da != db then da < db else Less(a, b)
  }

  lemma {:induction false} PrecedesIsOrder(ca: nat, da: nat, a: Key, cb: nat, db: nat, b: Key, cc: nat, dc: nat, c: Key)
    ensures !(Precedes(ca, da, a, cb, db, b) && Precedes(cb, db, b, ca, da, a))
    ensures a != b ==> Precedes(ca, da, a, cb, db, b) || Precedes(cb, db, b, ca, da, a)
    ensures Precedes(ca, da, a, cb, db, b) && Precedes(cb, db, b, cc, dc, c) ==> Precedes(ca, da, a, cc, dc, c)
    ensures !Precedes(ca, da, a, ca, da, a)
  {
    LessTotal(a, b);
    LessIrreflexive(a);
    if Less(a, b) && Less(b, a) {
      LessTrans(a, b, a);
    }
    if Less(a, b) && Less(b, c) {
      LessTrans(a, b, c);
    }
  }

  ghost predicate EvictsBefore(m: Tracked, digest: Key -> nat, a: Key, b: Key)
    requires a in m && b in m
  {
    Precedes(m[a].count, digest(a), a, m[b].count, digest(b), b)
  }

  ghost predicate IsMinKey(m: Tracked, digest: Key -> nat, k: Key) {
    k in m && forall j :: j in m && j != k ==> EvictsBefore(m, digest, k, j)
  }

  /** `before` orders the keys of `s` strictly and totally. */
  ghost predicate Orders(before: (Key, Key) -> bool, s: set<Key>) {
    && (forall a, b :: a in s && b in s && a != b ==> before(a, b) || before(b, a))
    && (forall a, b, c :: a in s && b in s && c in s && before(a, b) && before(b, c) ==> before(a, c))
  }

  lemma {:induction false} FirstExists(s: set<Key>, before: (Key, Key) -> bool) returns (k: Key)
    requires s != {} && Orders(before, s)
    ensures k in s && forall j :: j in s && j != k ==> before(k, j)
    decreases |s|
  {
    k :| k in s;
    if s != {k} {
      var rest := s - {k};
      assert |rest| < |s|;
      var j := FirstExists(rest, before);
      if before(j, k) && j != k {
        k := j;
      } else {
        forall i | i in s && i != k
          ensures before(k, i)
        {
          assert i in rest;
        }
      }
    }
  }

  lemma {:induction false} EvictionOrders(m: Tracked, digest: Key -> nat)
    ensures Orders((a, b) => a in m && b in m && EvictsBefore(m, digest, a, b), m.Keys)
  {
    var before := (a, b) => a in m && b in m && EvictsBefore(m, digest, a, b);
    forall a, b | a in m && b in m && a != b
      ensures before(a, b) || before(b, a)
    {
      PrecedesIsOrder(m[a].count, digest(a), a, m[b].count, digest(b), b, 0, 0, []);
    }
    forall a, b, c | a in m && b in m && c in m && before(a, b) && before(b, c)
      ensures before(a, c)
    {
      PrecedesIsOrder(m[a].count, digest(a), a, m[b].count, digest(b), b, m[c].count, digest(c), c);
    }
  }

  /** Which key is evicted: of the least count, among these of the least digest, and among
      these the least. */
  lemma {:induction false} EvictionMeans(m: Tracked, digest: Key -> nat, k: Key)
    ensures IsMinKey(m, digest, k) <==>
      && k in m
      && (forall j :: j in m ==> m[k].count <= m[j].count)
      && (forall j :: j in m && m[j].count == m[k].count ==> digest(k) <= digest(j))
      && forall j :: j in m && m[j].count == m[k].count && digest(j) == digest(k) && j != k ==> Less(k, j)
  {
    hide Less;
    if IsMinKey(m, digest, k) {
      forall j | j in m
        ensures m[k].count <= m[j].count && (m[j].count == m[k].count ==> digest(k) <= digest(j))
      {
        if j != k {
          assert EvictsBefore(m, digest, k, j);
        }
      }
      forall j | j in m && m[j].count == m[k].count && digest(j) == digest(k) && j != k
        ensures Less(k, j)
      {
        assert EvictsBefore(m, digest, k, j);
      }
    }
  }

  lemma {:induction false} MinKeyExists(m: Tracked, digest: Key -> nat)
    requires m != map[]
    ensures exists k :: IsMinKey(m, digest, k)
  {
    EvictionOrders(m, digest);
    var k := FirstExists(m.Keys, (a, b) => a in m && b in m && EvictsBefore(m, digest, a, b));
    assert IsMinKey(m, digest, k);
  }

  lemma {:induction false} MinKeyUnique(m: Tracked, digest: Key -> nat, a: Key, b: Key)
    requires IsMinKey(m, digest, a) && IsMinKey(m, digest, b)
    ensures a == b
  {
    if a != b {
      PrecedesIsOrder(m[a].count, digest(a), a, m[b].count, digest(b), b, 0, 0, []);
    }
  }

  ghost function MinKey(m: Tracked, digest: Key -> nat): (k: Key)
    requires m != map[]
    ensures IsMinKey(m, digest, k)
  {
    MinKeyExists(m, digest);
    var k :| IsMinKey(m, digest, k);
    k
  }

  /** The count an untracked key may have had: the minimum once full, else zero. */
  ghost function Floor(capacity: nat, m: Tracked): nat {
    if |m| < capacity || m == map[] then 0 else m[MinKey(m, _ => 0)].count
  }

  lemma {:induction false} FloorIsLeast(capacity: nat, m: Tracked, digest: Key -> nat, k: Key)
    requires IsMinKey(m, digest, k)
    ensures Floor(capacity, m) == if |m| < capacity then 0 else m[k].count
    ensures forall j :: j in m ==> Floor(capacity, m) <= m[j].count
  {
    var j := MinKey(m, _ => 0);
    assert forall i :: i in m && i != j ==> EvictsBefore(m, _ => 0, j, i);
    if j != k {
      assert EvictsBefore(m, digest, k, j) && EvictsBefore(m, _ => 0, j, k);
    }
  }

  lemma {:induction false} FloorBelow(capacity: nat, m: Tracked)
    ensures forall j :: j in m ==> Floor(capacity, m) <= m[j].count
  {
    if m != map[] {
      FloorIsLeast(capacity, m, _ => 0, MinKey(m, _ => 0));
    }
  }

  /** One weighted update of the tracked keys. */
  ghost function AddTo(capacity: nat, digest: Key -> nat, m: Tracked, key: Key, weight: nat): Tracked
    requires 0 < capacity
  {
    if key in m then m[key := Entry(m[key].count + weight, m[key].error)]
    else if |m| < capacity then m[key := Entry(weight, 0)]
    else
      var victim := MinKey(m, digest);
      (m - {victim})[key := Entry(m[victim].count + weight, m[victim].count)]
  }

  /** What two summaries say of a key either of them tracks. */
  ghost function Charge(capacity: nat, m: Tracked, key: Key): Entry {
    if key in m then m[key] else Entry(Floor(capacity, m), Floor(capacity, m))
  }

  ghost function Combined(capacity: nat, a: Tracked, b: Tracked): Tracked {
    map k | k in a.Keys + b.Keys ::
      Entry(Charge(capacity, a, k).count + Charge(capacity, b, k).count,
            Charge(capacity, a, k).error + Charge(capacity, b, k).error)
  }

  /** Trimming order: larger count first, then smaller key. */
  predicate RanksBefore(ca: nat, a: Key, cb: nat, b: Key) {
    if ca != cb then ca > cb else Less(a, b)
  }

  ghost function Better(m: Tracked, k: Key): set<Key>
    requires k in m
  {
    set j | j in m && RanksBefore(m[j].count, j, m[k].count, k)
  }

  /** The `capacity` best keys. */
  ghost function Trim(capacity: nat, m: Tracked): Tracked {
    map k | k in m && |Better(m, k)| < capacity :: m[k]
  }

  /** What a trim keeps: as many keys as fit, unchanged, and each of them has a larger count
      than every key dropped, or the same and is the smaller key. */
  lemma {:induction false} TrimMeans(capacity: nat, m: Tracked)
    requires 0 < capacity
    ensures var r := Trim(capacity, m);
      && |r| == (if |m| < capacity then |m| else capacity)
      && (forall k :: k in r ==> k in m && r[k] == m[k])
      && forall k, d :: k in r && d in m && d !in r ==>
           m[d].count < m[k].count || (m[d].count == m[k].count && Less(k, d))
  {
    hide Less, Better, RanksBefore;
    TrimSize(capacity, m);
    forall k, d | k in Trim(capacity, m) && d in m && d !in Trim(capacity, m)
      ensures m[d].count < m[k].count || (m[d].count == m[k].count && Less(k, d))
    {
      BetterOrder(m, k, d);
      RanksMeans(m[k].count, k, m[d].count, d);
    }
  }

  lemma {:induction false} RanksMeans(ca: nat, a: Key, cb: nat, b: Key)
    ensures RanksBefore(ca, a, cb, b) <==> cb < ca || (cb == ca && Less(a, b))
  {
  }

  lemma {:induction false} BetterOrder(m: Tracked, k: Key, d: Key)
    requires k in m && d in m && k != d && |Better(m, k)| < |Better(m, d)|
    ensures RanksBefore(m[k].count, k, m[d].count, d)
  {
    hide Less;
    LessTotal(k, d);
    if RanksBefore(m[d].count, d, m[k].count, k) {
      forall j | j in Better(m, d)
        ensures j in Better(m, k)
      {
        if Less(j, d) && Less(d, k) {
          LessTrans(j, d, k);
        }
      }
      SmallerSet(Better(m, d), Better(m, k));
    }
  }

  ghost function MergeTo(capacity: nat, a: Tracked, b: Tracked): Tracked {
    Trim(capacity, Combined(capacity, a, b))
  }

  // --- guarantees ---

  ghost function Counts(m: Tracked): Key -> int {
    (k: Key) => if k in m then m[k].count else 0
  }

  ghost predicate Fits(capacity: nat, error: nat, n: nat) {
    capacity * error <= n
  }

  lemma {:induction false} FitsMore(capacity: nat, error: nat, n: nat, more: nat)
    requires Fits(capacity, error, n) && n <= more
    ensures Fits(capacity, error, more)
  {
  }

  /** Every tracked count brackets the exact one. */
  ghost predicate Brackets(m: Tracked, truth: Key -> nat) {
    forall k :: k in m ==> m[k].error <= m[k].count && m[k].count - m[k].error <= truth(k) <= m[k].count
  }

  ghost predicate ErrorsFit(capacity: nat, m: Tracked, n: nat) {
    forall k :: k in m ==> Fits(capacity, m[k].error, n)
  }

  /** An untracked key occurred at most as often as the least tracked count. */
  ghost predicate MissesAreSmall(m: Tracked, truth: Key -> nat, floor: nat) {
    forall k :: k !in m ==> truth(k) <= floor
  }

  /** `m` is a sound summary of a stream of weight `n` with these exact counts. */
  ghost predicate Sound(capacity: nat, m: Tracked, truth: Key -> nat, n: nat) {
    && |m| <= capacity
    && Brackets(m, truth)
    && ErrorsFit(capacity, m, n)
    && MissesAreSmall(m, truth, Floor(capacity, m))
    && Sum(m.Keys, Counts(m)) <= n
  }

  lemma {:induction false} FullFloor(capacity: nat, m: Tracked, n: nat)
    requires |m| <= capacity && Sum(m.Keys, Counts(m)) <= n
    ensures Fits(capacity, Floor(capacity, m), n)
  {
    FloorBelow(capacity, m);
    SumAtLeast(m.Keys, Counts(m), Floor(capacity, m));
    if |m| == capacity {
      assert |m.Keys| == capacity;
    } else {
      SumAtLeast(m.Keys, Counts(m), 0);
      assert Floor(capacity, m) == 0;
    }
  }

  lemma {:induction false} UpdateSum(m: Tracked, key: Key, e: Entry)
    ensures Sum(m[key := e].Keys, Counts(m[key := e]))
         == Sum(m.Keys, Counts(m)) + e.count - (if key in m then m[key].count else 0)
  {
    var r := m[key := e];
    var rest := m.Keys - {key};
    assert r.Keys == rest + {key};
    SumInsert(rest, Counts(r), key);
    SumSame(rest, Counts(r), Counts(m));
    if key in m {
      SumRemove(m.Keys, Counts(m), key);
    } else {
      assert rest == m.Keys;
    }
  }

  lemma {:induction false} RemoveSum(m: Tracked, key: Key)
    requires key in m
    ensures Sum((m - {key}).Keys, Counts(m - {key})) == Sum(m.Keys, Counts(m)) - m[key].count
    ensures |m - {key}| == |m| - 1
  {
    SumRemove(m.Keys, Counts(m), key);
    assert (m - {key}).Keys == m.Keys - {key};
    SumSame(m.Keys - {key}, Counts(m), Counts(m - {key}));
  }

  /** The stream after one more update. */
  ghost predicate Extends(before: Key -> nat, after: Key -> nat, key: Key, weight: nat) {
    && after(key) == before(key) + weight
    && forall k :: k != key ==> after(k) == before(k)
  }

  lemma {:induction false} AddIsSound(capacity: nat, digest: Key -> nat, m: Tracked, key: Key, weight: nat,
                                      truth: Key -> nat, after: Key -> nat, n: nat)
    requires 0 < capacity && Sound(capacity, m, truth, n) && Extends(truth, after, key, weight)
    ensures var r := AddTo(capacity, digest, m, key, weight);
      && Sound(capacity, r, after, n + weight)
      && Sum(r.Keys, Counts(r)) == Sum(m.Keys, Counts(m)) + weight
  {
    if key in m {
      AddTracked(capacity, m, key, weight, truth, after, n);
    } else if |m| < capacity {
      AddNew(capacity, m, key, weight, truth, after, n);
    } else {
      AddEvicting(capacity, digest, m, key, weight, truth, after, n);
    }
  }

  lemma {:induction false} ErrorsStillFit(capacity: nat, m: Tracked, r: Tracked, n: nat, more: nat)
    requires ErrorsFit(capacity, m, n) && n <= more
    requires forall k :: k in r ==> (k in m && r[k].error == m[k].error) || Fits(capacity, r[k].error, more)
    ensures ErrorsFit(capacity, r, more)
  {
    forall k | k in r
      ensures Fits(capacity, r[k].error, more)
    {
      if k in m && r[k].error == m[k].error {
        FitsMore(capacity, m[k].error, n, more);
      }
    }
  }

  lemma {:induction false} AddTracked(capacity: nat, m: Tracked, key: Key, weight: nat,
                                      truth: Key -> nat, after: Key -> nat, n: nat)
    requires Sound(capacity, m, truth, n) && Extends(truth, after, key, weight) && key in m
    ensures var r := m[key := Entry(m[key].count + weight, m[key].error)];
      Sound(capacity, r, after, n + weight) && Sum(r.Keys, Counts(r)) == Sum(m.Keys, Counts(m)) + weight
  {
    hide Floor, Sum, Fits, Counts;
    var r := m[key := Entry(m[key].count + weight, m[key].error)];
    assert r.Keys == m.Keys && |r| == |r.Keys| == |m.Keys|;
    UpdateSum(m, key, Entry(m[key].count + weight, m[key].error));
    FloorBelow(capacity, m);
    FloorGrows(capacity, m, r);
    ErrorsStillFit(capacity, m, r, n, n + weight);
    assert Brackets(r, after);
  }

  lemma {:induction false} MoreMisses(m: Tracked, truth: Key -> nat, low: nat, high: nat)
    requires MissesAreSmall(m, truth, low) && low <= high
    ensures MissesAreSmall(m, truth, high)
  {
  }

  /** A newcomer that inherits `floor` as count and error brackets its truth. */
  lemma {:induction false} NewcomerBrackets(m: Tracked, r: Tracked, key: Key, weight: nat, floor: nat,
                                            truth: Key -> nat, after: Key -> nat)
    requires Brackets(m, truth) && MissesAreSmall(m, truth, floor) && Extends(truth, after, key, weight) && key !in m
    requires key in r && r[key] == Entry(floor + weight, floor)
    requires forall k :: k in r && k != key ==> k in m && r[k] == m[k]
    requires forall k :: k in m && k !in r ==> m[k].count <= floor
    ensures Brackets(r, after) && MissesAreSmall(r, after, floor)
  {
    forall k | k in r
      ensures r[k].error <= r[k].count && r[k].count - r[k].error <= after(k) <= r[k].count
    {
      if k != key {
        assert m[k].count - m[k].error <= truth(k) <= m[k].count;
      }
    }
    forall k | k !in r
      ensures after(k) <= floor
    {
      if k in m {
        assert truth(k) <= m[k].count;
      }
    }
  }

  lemma {:induction false} NotFull(capacity: nat, m: Tracked, n: nat)
    requires |m| < capacity
    ensures Floor(capacity, m) == 0 && Fits(capacity, 0, n)
  {
  }

  lemma {:induction false} AddNew(capacity: nat, m: Tracked, key: Key, weight: nat,
                                  truth: Key -> nat, after: Key -> nat, n: nat)
    requires Sound(capacity, m, truth, n) && Extends(truth, after, key, weight) && key !in m && |m| < capacity
    ensures var r := m[key := Entry(weight, 0)];
      Sound(capacity, r, after, n + weight) && Sum(r.Keys, Counts(r)) == Sum(m.Keys, Counts(m)) + weight
  {
    hide Floor, Sum, Fits, Brackets, MissesAreSmall, Extends, Counts;
    var r := m[key := Entry(weight, 0)];
    assert r.Keys == m.Keys + {key} && |r| == |r.Keys|;
    UpdateSum(m, key, Entry(weight, 0));
    NotFull(capacity, m, n + weight);
    NewcomerBrackets(m, r, key, weight, 0, truth, after);
    ErrorsStillFit(capacity, m, r, n, n + weight);
    MoreMisses(r, after, 0, Floor(capacity, r));
  }

  lemma {:induction false} ReplaceSize(m: Tracked, victim: Key, key: Key, r: Tracked)
    requires victim in m && key !in m && r.Keys == m.Keys - {victim} + {key}
    ensures |r| == |m|
  {
    assert |r| == |r.Keys| && |m| == |m.Keys|;
  }

  /** The victim is replaced: the size stays, the sum grows by the weight alone. */
  lemma {:induction false} EvictingSums(m: Tracked, victim: Key, key: Key, weight: nat)
    requires victim in m && key !in m
    ensures var r := (m - {victim})[key := Entry(m[victim].count + weight, m[victim].count)];
      |r| == |m| && Sum(r.Keys, Counts(r)) == Sum(m.Keys, Counts(m)) + weight
  {
    hide Sum, Counts;
    var rest := m - {victim};
    RemoveSum(m, victim);
    UpdateSum(rest, key, Entry(m[victim].count + weight, m[victim].count));
    ReplaceSize(m, victim, key, rest[key := Entry(m[victim].count + weight, m[victim].count)]);
  }

  lemma {:induction false} EvictingBounds(capacity: nat, m: Tracked, victim: Key, key: Key, weight: nat,
                                          truth: Key -> nat, after: Key -> nat, n: nat)
    requires Brackets(m, truth) && ErrorsFit(capacity, m, n) && Extends(truth, after, key, weight)
    requires victim in m && key !in m && MissesAreSmall(m, truth, m[victim].count) && Fits(capacity, m[victim].count, n)
    ensures var r := (m - {victim})[key := Entry(m[victim].count + weight, m[victim].count)];
      Brackets(r, after) && MissesAreSmall(r, after, m[victim].count) && ErrorsFit(capacity, r, n + weight)
  {
    hide Fits, Brackets, MissesAreSmall, Extends, ErrorsFit;
    var r := (m - {victim})[key := Entry(m[victim].count + weight, m[victim].count)];
    FitsMore(capacity, m[victim].count, n, n + weight);
    ErrorsStillFit(capacity, m, r, n, n + weight);
    NewcomerBrackets(m, r, key, weight, m[victim].count, truth, after);
  }

  lemma {:induction false} AddEvicting(capacity: nat, digest: Key -> nat, m: Tracked, key: Key, weight: nat,
                                       truth: Key -> nat, after: Key -> nat, n: nat)
    requires 0 < capacity && Sound(capacity, m, truth, n) && Extends(truth, after, key, weight)
    requires key !in m && |m| == capacity
    ensures var victim := MinKey(m, digest);
      var r := (m - {victim})[key := Entry(m[victim].count + weight, m[victim].count)];
      Sound(capacity, r, after, n + weight) && Sum(r.Keys, Counts(r)) == Sum(m.Keys, Counts(m)) + weight
  {
    hide Floor, Sum, Fits, Brackets, MissesAreSmall, Extends, Counts, EvictsBefore, ErrorsFit;
    var victim := MinKey(m, digest);
    var r := (m - {victim})[key := Entry(m[victim].count + weight, m[victim].count)];
    FloorIsLeast(capacity, m, digest, victim);
    FullFloor(capacity, m, n);
    EvictingSums(m, victim, key, weight);
    EvictingBounds(capacity, m, victim, key, weight, truth, after, n);
    FloorGrows(capacity, m, r);
    MoreMisses(r, after, m[victim].count, Floor(capacity, r));
  }

  /** When no tracked count falls below the old floor, the floor does not fall. */
  lemma {:induction false} FloorGrows(capacity: nat, m: Tracked, r: Tracked)
    requires |r| == |m| && forall k :: k in r ==> Floor(capacity, m) <= r[k].count
    ensures Floor(capacity, m) <= Floor(capacity, r)
  {
    if r != map[] {
      var k := MinKey(r, _ => 0);
      FloorIsLeast(capacity, r, _ => 0, k);
    } else {
      assert m.Keys == {};
    }
  }

  // --- merging ---

  lemma {:induction false} RankIsOrder(ca: nat, a: Key, cb: nat, b: Key, cc: nat, c: Key)
    ensures !(RanksBefore(ca, a, cb, b) && RanksBefore(cb, b, ca, a))
    ensures a != b ==> RanksBefore(ca, a, cb, b) || RanksBefore(cb, b, ca, a)
    ensures RanksBefore(ca, a, cb, b) && RanksBefore(cb, b, cc, c) ==> RanksBefore(ca, a, cc, c)
    ensures !RanksBefore(ca, a, ca, a)
  {
    LessTotal(a, b);
    LessIrreflexive(a);
    if Less(a, b) && Less(b, a) {
      LessTrans(a, b, a);
    }
    if Less(a, b) && Less(b, c) {
      LessTrans(a, b, c);
    }
  }

  function Ranks(m: Tracked): (Key, Key) -> bool {
    (a, b) => a in m && b in m && RanksBefore(m[a].count, a, m[b].count, b)
  }

  lemma {:induction false} RankOrders(m: Tracked, s: set<Key>)
    requires s <= m.Keys
    ensures Orders(Ranks(m), s)
    ensures Orders((a, b) => Ranks(m)(b, a), s)
  {
    forall a, b | a in s && b in s && a != b
      ensures Ranks(m)(a, b) || Ranks(m)(b, a)
    {
      RankIsOrder(m[a].count, a, m[b].count, b, 0, []);
    }
    forall a, b, c | a in s && b in s && c in s && Ranks(m)(a, b) && Ranks(m)(b, c)
      ensures Ranks(m)(a, c)
    {
      RankIsOrder(m[a].count, a, m[b].count, b, m[c].count, c);
    }
  }

  /** A key that ranks before a kept key is kept. */
  lemma {:induction false} BetterShrinks(m: Tracked, a: Key, b: Key)
    requires a in m && b in m && Ranks(m)(a, b)
    ensures Better(m, a) < Better(m, b)
  {
    forall j | j in Better(m, a)
      ensures j in Better(m, b)
    {
      RankIsOrder(m[j].count, j, m[a].count, a, m[b].count, b);
    }
    RankIsOrder(m[a].count, a, m[a].count, a, 0, []);
    assert a in Better(m, b) && a !in Better(m, a);
  }

  /** The trim keeps exactly `capacity` keys, or all of them when they fit. */
  lemma {:induction false} TrimSize(capacity: nat, m: Tracked)
    requires 0 < capacity
    ensures |Trim(capacity, m)| <= capacity
    ensures |m| < capacity ==> Trim(capacity, m) == m
    ensures capacity <= |m| ==> |Trim(capacity, m)| == capacity
  {
    var kept := Trim(capacity, m).Keys;
    assert |kept| == |Trim(capacity, m)| && |m| == |m.Keys|;
    if kept != {} {
      RankOrders(m, kept);
      var worst := FirstExists(kept, (a, b) => Ranks(m)(b, a));
      assert kept - {worst} <= Better(m, worst);
      SmallerSet(kept - {worst}, Better(m, worst));
    }
    SmallerSet(kept, m.Keys);
    if |kept| < capacity {
      AllKept(capacity, m, kept);
    }
  }

  lemma {:induction false} AllKept(capacity: nat, m: Tracked, kept: set<Key>)
    requires kept == Trim(capacity, m).Keys && |kept| < capacity
    ensures kept == m.Keys && Trim(capacity, m) == m
  {
    var dropped := m.Keys - kept;
    if dropped != {} {
      RankOrders(m, dropped);
      var best := FirstExists(dropped, Ranks(m));
      forall j | j in Better(m, best)
        ensures j in kept
      {
        assert j !in kept ==> j in dropped;
        assert j in dropped && j != best ==> Ranks(m)(best, j);
        RankIsOrder(m[j].count, j, m[best].count, best, 0, []);
        RankIsOrder(m[j].count, j, m[j].count, j, 0, []);
      }
      SmallerSet(Better(m, best), kept);
      assert false;
    }
    forall k | k in m
      ensures k in kept
    {
      assert k !in kept ==> k in dropped;
    }
  }

  /** Every dropped key counts no more than any kept key. */
  lemma {:induction false} DroppedCountsLess(capacity: nat, m: Tracked, k: Key, j: Key)
    requires k in m && k !in Trim(capacity, m) && j in Trim(capacity, m)
    ensures m[k].count <= m[j].count
  {
    if m[j].count < m[k].count {
      BetterShrinks(m, k, j);
      SmallerSet(Better(m, k), Better(m, j));
      assert false;
    }
  }

  lemma {:induction false} ChargeIsSound(capacity: nat, m: Tracked, truth: Key -> nat, n: nat, k: Key)
    requires Sound(capacity, m, truth, n)
    ensures var e := Charge(capacity, m, k);
      && e.error <= e.count && e.count - e.error <= truth(k) <= e.count
      && Fits(capacity, e.error, n) && Floor(capacity, m) <= e.count
  {
    FullFloor(capacity, m, n);
    FloorBelow(capacity, m);
  }

  lemma {:induction false} FitsTogether(capacity: nat, e: nat, f: nat, m: nat, n: nat)
    requires Fits(capacity, e, m) && Fits(capacity, f, n)
    ensures Fits(capacity, e + f, m + n)
  {
    assert capacity * (e + f) == capacity * e + capacity * f;
  }

  ghost function ChargeCounts(capacity: nat, m: Tracked): Key -> int {
    (k: Key) => Charge(capacity, m, k).count
  }

  /** Over any `capacity` keys the charges of one summary sum to at most its counts. */
  lemma {:induction false} ChargesFit(capacity: nat, m: Tracked, kept: set<Key>)
    requires |kept| <= capacity && |m| <= capacity
    ensures Sum(kept, ChargeCounts(capacity, m)) <= Sum(m.Keys, Counts(m))
  {
    hide Sum, Floor, Counts, ChargeCounts;
    var both, extra, gone := kept * m.Keys, kept - m.Keys, m.Keys - kept;
    var floor := Floor(capacity, m);
    KeptCharges(capacity, m, kept);
    TrackedCounts(capacity, m, kept);
    if |m| == capacity {
      SplitSizes(m, kept);
      MulMonotone(|extra|, |gone|, floor);
    } else {
      NotFull(capacity, m, 0);
    }
  }

  lemma {:induction false} SplitSizes(m: Tracked, kept: set<Key>)
    ensures |kept| - |kept - m.Keys| == |m| - |m.Keys - kept|
  {
    var both, extra, gone := kept * m.Keys, kept - m.Keys, m.Keys - kept;
    assert both + extra == kept && both + gone == m.Keys && |m| == |m.Keys|;
    assert |kept| == |both| + |extra| && |m.Keys| == |both| + |gone|;
  }

  lemma {:induction false} KeptCharges(capacity: nat, m: Tracked, kept: set<Key>)
    ensures Sum(kept, ChargeCounts(capacity, m))
         <= Sum(kept * m.Keys, Counts(m)) + |kept - m.Keys| * Floor(capacity, m)
  {
    hide Sum, Floor;
    var both, extra := kept * m.Keys, kept - m.Keys;
    assert both + extra == kept;
    SumUnion(both, extra, ChargeCounts(capacity, m));
    SumSame(both, ChargeCounts(capacity, m), Counts(m));
    SumAtMost(extra, ChargeCounts(capacity, m), Floor(capacity, m));
  }

  lemma {:induction false} TrackedCounts(capacity: nat, m: Tracked, kept: set<Key>)
    ensures Sum(m.Keys, Counts(m)) >= Sum(kept * m.Keys, Counts(m)) + |m.Keys - kept| * Floor(capacity, m)
    ensures Sum(m.Keys, Counts(m)) >= Sum(kept * m.Keys, Counts(m))
  {
    hide Sum, Floor;
    var both, gone := kept * m.Keys, m.Keys - kept;
    assert both + gone == m.Keys;
    SumUnion(both, gone, Counts(m));
    FloorBelow(capacity, m);
    SumAtLeast(gone, Counts(m), Floor(capacity, m));
    SumAtLeast(gone, Counts(m), 0);
  }

  lemma {:induction false} MergeSum(capacity: nat, a: Tracked, b: Tracked)
    requires 0 < capacity && |a| <= capacity && |b| <= capacity
    ensures var r := MergeTo(capacity, a, b);
      Sum(r.Keys, Counts(r)) <= Sum(a.Keys, Counts(a)) + Sum(b.Keys, Counts(b))
  {
    var r := MergeTo(capacity, a, b);
    TrimSize(capacity, Combined(capacity, a, b));
    ChargesFit(capacity, a, r.Keys);
    ChargesFit(capacity, b, r.Keys);
    SumAdd(r.Keys, ChargeCounts(capacity, a), ChargeCounts(capacity, b), Counts(r));
  }

  ghost predicate Adds(ta: Key -> nat, tb: Key -> nat, both: Key -> nat) {
    forall k :: both(k) == ta(k) + tb(k)
  }

  lemma {:induction false} MergedEntry(capacity: nat, a: Tracked, b: Tracked, k: Key)
    ensures var u := Combined(capacity, a, b);
      && (k in u <==> k in a || k in b)
      && (k in u ==> u[k].count == Charge(capacity, a, k).count + Charge(capacity, b, k).count)
    ensures var r := MergeTo(capacity, a, b);
      k in r ==>
        && k in a.Keys + b.Keys
        && r[k].count == Charge(capacity, a, k).count + Charge(capacity, b, k).count
        && r[k].error == Charge(capacity, a, k).error + Charge(capacity, b, k).error
  {
  }

  lemma {:induction false} MergeBracket(capacity: nat, a: Tracked, b: Tracked, ta: Key -> nat, tb: Key -> nat,
                                        both: Key -> nat, na: nat, nb: nat, k: Key)
    requires Sound(capacity, a, ta, na) && Sound(capacity, b, tb, nb) && Adds(ta, tb, both)
    requires k in MergeTo(capacity, a, b)
    ensures var e := MergeTo(capacity, a, b)[k];
      e.error <= e.count && e.count - e.error <= both(k) <= e.count && Fits(capacity, e.error, na + nb)
  {
    hide Sound, Fits, Floor, MergeTo, Charge;
    MergedEntry(capacity, a, b, k);
    ChargeIsSound(capacity, a, ta, na, k);
    ChargeIsSound(capacity, b, tb, nb, k);
    FitsTogether(capacity, Charge(capacity, a, k).error, Charge(capacity, b, k).error, na, nb);
  }

  lemma {:induction false} MergeBrackets(capacity: nat, a: Tracked, b: Tracked, ta: Key -> nat, tb: Key -> nat,
                                         both: Key -> nat, na: nat, nb: nat)
    requires Sound(capacity, a, ta, na) && Sound(capacity, b, tb, nb) && Adds(ta, tb, both)
    ensures Brackets(MergeTo(capacity, a, b), both) && ErrorsFit(capacity, MergeTo(capacity, a, b), na + nb)
  {
    hide Sound, Fits, Floor, MergeTo, Adds;
    var r := MergeTo(capacity, a, b);
    forall k | k in r
      ensures r[k].error <= r[k].count && r[k].count - r[k].error <= both(k) <= r[k].count
      ensures Fits(capacity, r[k].error, na + nb)
    {
      MergeBracket(capacity, a, b, ta, tb, both, na, nb, k);
    }
  }

  lemma {:induction false} MergeMisses(capacity: nat, a: Tracked, b: Tracked, ta: Key -> nat, tb: Key -> nat,
                                       both: Key -> nat, na: nat, nb: nat, k: Key)
    requires 0 < capacity && Sound(capacity, a, ta, na) && Sound(capacity, b, tb, nb) && Adds(ta, tb, both)
    requires k !in MergeTo(capacity, a, b)
    ensures both(k) <= Floor(capacity, MergeTo(capacity, a, b))
  {
    var u, r := Combined(capacity, a, b), MergeTo(capacity, a, b);
    hide Sound, Fits, Floor, Charge, Combined, Trim, MinKey;
    TrimSize(capacity, u);
    MergedEntry(capacity, a, b, k);
    ChargeIsSound(capacity, a, ta, na, k);
    ChargeIsSound(capacity, b, tb, nb, k);
    if |u| < capacity {
      FewKeys(capacity, a, b);
      Untracked(capacity, a, k);
      Untracked(capacity, b, k);
    } else {
      FullAfterMerge(capacity, r);
      var least := MinKey(r, _ => 0);
      MergedEntry(capacity, a, b, least);
      if k in u {
        DroppedCountsLess(capacity, u, k, least);
      } else {
        ChargeIsSound(capacity, a, ta, na, least);
        ChargeIsSound(capacity, b, tb, nb, least);
        Untracked(capacity, a, k);
        Untracked(capacity, b, k);
      }
    }
  }

  lemma {:induction false} Untracked(capacity: nat, m: Tracked, k: Key)
    requires k !in m
    ensures Charge(capacity, m, k).count == Floor(capacity, m)
  {
  }

  lemma {:induction false} FewKeys(capacity: nat, a: Tracked, b: Tracked)
    requires |Combined(capacity, a, b)| < capacity
    ensures Floor(capacity, a) == 0 == Floor(capacity, b)
  {
    var u := Combined(capacity, a, b);
    assert u.Keys == a.Keys + b.Keys;
    SmallerSet(a.Keys, u.Keys);
    SmallerSet(b.Keys, u.Keys);
    assert |a| == |a.Keys| && |b| == |b.Keys| && |u| == |u.Keys|;
    NotFull(capacity, a, 0);
    NotFull(capacity, b, 0);
  }

  lemma {:induction false} FullAfterMerge(capacity: nat, r: Tracked)
    requires 0 < capacity && |r| == capacity
    ensures r != map[] && MinKey(r, _ => 0) in r && Floor(capacity, r) == r[MinKey(r, _ => 0)].count
  {
  }

  lemma {:induction false} MergeIsSound(capacity: nat, a: Tracked, b: Tracked, ta: Key -> nat, tb: Key -> nat,
                                        both: Key -> nat, na: nat, nb: nat)
    requires 0 < capacity && Sound(capacity, a, ta, na) && Sound(capacity, b, tb, nb) && Adds(ta, tb, both)
    ensures Sound(capacity, MergeTo(capacity, a, b), both, na + nb)
  {
    hide Floor, Sum, Fits, Counts, MergeTo;
    MergeBrackets(capacity, a, b, ta, tb, both, na, nb);
    MergeSum(capacity, a, b);
    MergeFits(capacity, a, b);
    forall k | k !in MergeTo(capacity, a, b)
      ensures both(k) <= Floor(capacity, MergeTo(capacity, a, b))
    {
      MergeMisses(capacity, a, b, ta, tb, both, na, nb, k);
    }
  }

  lemma {:induction false} MergeFits(capacity: nat, a: Tracked, b: Tracked)
    requires 0 < capacity
    ensures |MergeTo(capacity, a, b)| <= capacity
  {
    TrimSize(capacity, Combined(capacity, a, b));
  }

  // --- any tree of updates and merges ---

  ghost function Summary(capacity: nat, digest: Key -> nat, h: History): Tracked
    requires 0 < capacity
  {
    match h
    case Fresh => map[]
    case Updated(before, key, weight) => AddTo(capacity, digest, Summary(capacity, digest, before), key, weight)
    case Merged(left, right) => MergeTo(capacity, Summary(capacity, digest, left), Summary(capacity, digest, right))
  }

  /** After any tree of updates and merges the summary is sound: counts bracket the
      truth within their error, errors and untracked keys are small, and the counts
      sum to at most the stream's weight, exactly when nothing was merged. */
  lemma {:induction false} TreeIsSound(capacity: nat, digest: Key -> nat, h: History)
    requires 0 < capacity
    ensures var m := Summary(capacity, digest, h);
      && Sound(capacity, m, TruthOf(h), Weight(h))
      && (MergeFree(h) ==> Sum(m.Keys, Counts(m)) == Weight(h))
  {
    hide Sound, Sum, AddTo, MergeTo, Counts;
    match h
    case Fresh => EmptyIsSound(capacity, h);
    case Updated(before, key, weight) =>
      TreeIsSound(capacity, digest, before);
      AddIsSound(capacity, digest, Summary(capacity, digest, before), key, weight,
                 TruthOf(before), TruthOf(h), Weight(before));
    case Merged(left, right) =>
      TreeIsSound(capacity, digest, left);
      TreeIsSound(capacity, digest, right);
      MergeIsSound(capacity, Summary(capacity, digest, left), Summary(capacity, digest, right),
                   TruthOf(left), TruthOf(right), TruthOf(h), Weight(left), Weight(right));
  }

  lemma {:induction false} EmptyIsSound(capacity: nat, h: History)
    requires h == Fresh
    ensures Sound(capacity, map[], TruthOf(h), 0)
    ensures var m: Tracked := map[]; Sum(m.Keys, Counts(m)) == 0
  {
  }

  /** A key heavier than its share of the capacity is always tracked. */
  lemma {:induction false} HeavyKeysAreTracked(capacity: nat, digest: Key -> nat, h: History, key: Key)
    requires 0 < capacity && Truth(h, key) * capacity > Weight(h)
    ensures key in Summary(capacity, digest, h)
  {
    hide Summary, Sum, Floor, Truth;
    TreeIsSound(capacity, digest, h);
    var m := Summary(capacity, digest, h);
    if key !in m {
      FullFloor(capacity, m, Weight(h));
      TooHeavy(capacity, Truth(h, key), Floor(capacity, m), Weight(h));
      assert false;
    }
  }

  lemma {:induction false} TooHeavy(capacity: nat, truth: nat, floor: nat, n: nat)
    requires Fits(capacity, floor, n) && n < truth * capacity
    ensures floor < truth
  {
    if truth <= floor {
      MulMonotone(truth, floor, capacity);
    }
  }
}
