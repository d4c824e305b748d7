/** KLL compactors as values: levels of items that weigh twice as much one level up. */
module KllSpec {
  import opened Arithmetic

  const MIN_LEVEL_CAPACITY: nat := 8
  const CAPACITY_DECAY_NUM: nat := 2
  const CAPACITY_DECAY_DEN: nat := 3

  type Levels = seq<seq<nat>>

  // --- ranks ---

  /** How many items are at most `x`. */
  function CountLe(s: seq<nat>, x: nat): nat {
    if s == [] then 0 else CountLe(s[..|s| - 1], x) + if s[|s| - 1] <= x then 1 else 0
  }

  /** Weighted rank: an item of level `i` weighs `2^i`. */
  ghost function Rank(levels: Levels, x: nat): nat {
    if levels == [] then 0 else CountLe(levels[0], x) + 2 * Rank(levels[1..], x)
  }

  ghost function TotalWeight(levels: Levels): nat {
    if levels == [] then 0 else |levels[0]| + 2 * TotalWeight(levels[1..])
  }

  ghost function Stored(levels: Levels): nat {
    if levels == [] then 0 else Stored(levels[..|levels| - 1]) + |levels[|levels| - 1]|
  }

  lemma {:induction false} CountLeConcat(s: seq<nat>, t: seq<nat>, x: nat)
    ensures CountLe(s + t, x) == CountLe(s, x) + CountLe(t, x)
  {
    if t == [] {
      assert s + t == s;
    } else {
      assert (s + t)[..|s + t| - 1] == s + t[..|t| - 1];
      CountLeConcat(s, t[..|t| - 1], x);
    }
  }

  lemma {:induction false} CountLeFits(s: seq<nat>, x: nat)
    ensures CountLe(s, x) <= |s|
    ensures AllAtMost(s, x) ==> CountLe(s, x) == |s|
  {
    if s != [] {
      CountLeFits(s[..|s| - 1], x);
    }
  }

  ghost predicate AllAtMost(s: seq<nat>, x: nat) {
    forall i :: 0 <= i < |s| ==> s[i] <= x
  }

  /** All items of all levels are at most `x`. */
  ghost predicate LevelsAtMost(levels: Levels, x: nat) {
    forall i :: 0 <= i < |levels| ==> AllAtMost(levels[i], x)
  }

  // --- sorting ---

  ghost predicate Sorted(s: seq<nat>) {
    forall i, j :: 0 <= i < j < |s| ==> s[i] <= s[j]
  }

  function Insert(s: seq<nat>, v: nat): (r: seq<nat>)
    ensures multiset(r) == multiset(s) + multiset{v}
  {
    if s == [] || s[|s| - 1] <= v then s + [v]
    else
      assert s == s[..|s| - 1] + [s[|s| - 1]];
      Insert(s[..|s| - 1], v) + [s[|s| - 1]]
  }

  function Sort(s: seq<nat>): (r: seq<nat>)
    ensures multiset(r) == multiset(s)
  {
    if s == [] then []
    else
      assert s == s[..|s| - 1] + [s[|s| - 1]];
      Insert(Sort(s[..|s| - 1]), s[|s| - 1])
  }

  lemma {:induction false} InsertBelow(s: seq<nat>, v: nat, bound: nat)
    requires v <= bound && AllAtMost(s, bound)
    ensures AllAtMost(Insert(s, v), bound)
  {
    if s != [] && s[|s| - 1] > v {
      var r, rest := Insert(s, v), Insert(s[..|s| - 1], v);
      InsertBelow(s[..|s| - 1], v, bound);
      assert r == rest + [s[|s| - 1]];
      assert forall i :: 0 <= i < |rest| ==> r[i] == rest[i];
    }
  }

  lemma {:induction false} InsertSorts(s: seq<nat>, v: nat)
    requires Sorted(s)
    ensures Sorted(Insert(s, v))
  {
    if s != [] && s[|s| - 1] > v {
      var r, rest := Insert(s, v), Insert(s[..|s| - 1], v);
      InsertSorts(s[..|s| - 1], v);
      InsertBelow(s[..|s| - 1], v, s[|s| - 1]);
      assert r == rest + [s[|s| - 1]];
      assert forall i :: 0 <= i < |rest| ==> r[i] == rest[i];
    }
  }

  lemma {:induction false} SortSorts(s: seq<nat>)
    ensures Sorted(Sort(s))
  {
    if s != [] {
      SortSorts(s[..|s| - 1]);
      InsertSorts(Sort(s[..|s| - 1]), s[|s| - 1]);
    }
  }

  lemma {:induction false} InsertCount(s: seq<nat>, v: nat, x: nat)
    ensures CountLe(Insert(s, v), x) == CountLe(s, x) + if v <= x then 1 else 0
  {
    if s == [] || s[|s| - 1] <= v {
      CountLeConcat(s, [v], x);
    } else {
      InsertCount(s[..|s| - 1], v, x);
      CountLeConcat(Insert(s[..|s| - 1], v), [s[|s| - 1]], x);
    }
  }

  lemma {:induction false} SortCount(s: seq<nat>, x: nat)
    ensures CountLe(Sort(s), x) == CountLe(s, x)
  {
    if s != [] {
      SortCount(s[..|s| - 1], x);
      InsertCount(Sort(s[..|s| - 1]), s[|s| - 1], x);
    }
  }

  lemma {:induction false} SortSize(s: seq<nat>)
    ensures |Sort(s)| == |s| && forall v :: v in Sort(s) ==> v in s
  {
    assert |multiset(Sort(s))| == |multiset(s)|;
    forall v | v in Sort(s)
      ensures v in s
    {
      assert v in multiset(Sort(s));
      assert v in multiset(s);
    }
  }

  // --- one compaction ---

  /** Every second item, starting at `offset`. */
  function EverySecond(s: seq<nat>, offset: nat): seq<nat>
    decreases |s| - offset
  {
    if offset >= |s| then [] else [s[offset]] + EverySecond(s, offset + 2)
  }

  lemma {:induction false} EverySecondFrom(s: seq<nat>, offset: nat)
    ensures |EverySecond(s, offset)| == if offset >= |s| then 0 else (|s| - offset + 1) / 2
    ensures forall v :: v in EverySecond(s, offset) ==> v in s
    decreases |s| - offset
  {
    if offset < |s| {
      EverySecondFrom(s, offset + 2);
    }
  }

  /** In a sorted buffer the items at most `x` are a prefix. */
  lemma {:induction false} SortedPrefix(s: seq<nat>, x: nat)
    requires Sorted(s)
    ensures CountLe(s, x) <= |s|
    ensures forall i :: 0 <= i < |s| ==> (s[i] <= x <==> i < CountLe(s, x))
  {
    if s != [] {
      var init := s[..|s| - 1];
      SortedPrefix(init, x);
      assert forall i :: 0 <= i < |init| ==> init[i] == s[i];
      if s[|s| - 1] <= x && |init| > 0 {
        assert init[|init| - 1] <= x;
      }
    }
  }

  lemma {:induction false} EverySecondCount(s: seq<nat>, offset: nat, x: nat)
    requires Sorted(s)
    ensures CountLe(EverySecond(s, offset), x)
         == if offset >= CountLe(s, x) then 0 else (CountLe(s, x) - offset + 1) / 2
    decreases |s| - offset
  {
    SortedPrefix(s, x);
    if offset < |s| {
      EverySecondCount(s, offset + 2, x);
      CountLeConcat([s[offset]], EverySecond(s, offset + 2), x);
    }
  }

  /** The promoted half of `items`: sorted, every second one, starting at 0 or 1. */
  function Promoted(items: seq<nat>, bit: bool): seq<nat> {
    EverySecond(Sort(items), if bit then 1 else 0)
  }

  /** Twice the promoted rank misses the rank by at most one, whatever the parity bit. */
  lemma {:induction false} PromotedRank(items: seq<nat>, bit: bool, x: nat)
    ensures -1 <= 2 * CountLe(Promoted(items, bit), x) - CountLe(items, x) <= 1
  {
    SortSorts(items);
    SortCount(items, x);
    EverySecondCount(Sort(items), if bit then 1 else 0, x);
  }

  lemma {:induction false} PromotedSize(items: seq<nat>, bit: bool)
    ensures 2 * |Promoted(items, bit)| <= |items| + 1 && |items| <= 2 * |Promoted(items, bit)| + 1
    ensures forall v :: v in Promoted(items, bit) ==> v in items
  {
    SortSize(items);
    EverySecondFrom(Sort(items), if bit then 1 else 0);
  }

  /** The promoted items are those at offset, offset + 2, ... of the sorted buffer, the offset
      being the parity bit, to its end. */
  lemma {:induction false} PromotedAt(items: seq<nat>, bit: bool)
    ensures var offset := if bit then 1 else 0;
      && Sorted(Sort(items)) && multiset(Sort(items)) == multiset(items)
      && |Promoted(items, bit)| == (|items| + 1 - offset) / 2
      && forall j: nat :: j < |Promoted(items, bit)| ==>
           2 * j + offset < |items| == |Sort(items)| && Promoted(items, bit)[j] == Sort(items)[2 * j + offset]
  {
    hide Sort, Sorted;
    SortSorts(items);
    SortSize(items);
    EverySecondFrom(Sort(items), if bit then 1 else 0);
    EverySecondAt(Sort(items), if bit then 1 else 0);
  }

  lemma {:induction false} EverySecondAt(s: seq<nat>, offset: nat)
    ensures forall j: nat :: j < |EverySecond(s, offset)| ==>
      2 * j + offset < |s| && EverySecond(s, offset)[j] == s[2 * j + offset]
    decreases |s| - offset
  {
    if offset < |s| {
      EverySecondAt(s, offset + 2);
      var rest := EverySecond(s, offset + 2);
      forall j: nat | j < |EverySecond(s, offset)|
        ensures 2 * j + offset < |s| && EverySecond(s, offset)[j] == s[2 * j + offset]
      {
        if j > 0 {
          assert EverySecond(s, offset)[j] == rest[j - 1];
        }
      }
    }
  }

  function Compacted(levels: Levels, level: nat, bit: bool): Levels
    requires level + 1 < |levels|
  {
    levels[level := []][level + 1 := levels[level + 1] + Promoted(levels[level], bit)]
  }

  lemma {:induction false} CompactedTail(levels: Levels, level: nat, bit: bool)
    requires 0 < level && level + 1 < |levels|
    ensures Compacted(levels, level, bit)[0] == levels[0]
    ensures Compacted(levels, level, bit)[1..] == Compacted(levels[1..], level - 1, bit)
  {
  }

  /** One compaction at `level` moves any weighted rank by at most `2^level`. */
  lemma {:induction false} CompactionError(levels: Levels, level: nat, bit: bool, x: nat)
    requires level + 1 < |levels|
    ensures -(Pow2(level) as int) <= Rank(Compacted(levels, level, bit), x) - Rank(levels, x) <= Pow2(level)
    decreases level
  {
    hide Promoted, CountLe;
    var after := Compacted(levels, level, bit);
    if level == 0 {
      assert after[1..][1..] == levels[1..][1..];
      assert after[1..][0] == levels[1..][0] + Promoted(levels[0], bit);
      CountLeConcat(levels[1], Promoted(levels[0], bit), x);
      PromotedRank(levels[0], bit, x);
      assert CountLe([], x) == 0 by { NoneLe(x); }
    } else {
      CompactedTail(levels, level, bit);
      CompactionError(levels[1..], level - 1, bit, x);
    }
  }

  lemma {:induction false} NoneLe(x: nat)
    ensures CountLe([], x) == 0
  {
  }

  // --- capacities and space ---

  function Geometric(k: nat, depth: nat): nat {
    if depth == 0 then k else Geometric(k, depth - 1) * CAPACITY_DECAY_NUM / CAPACITY_DECAY_DEN
  }

  /** The capacity of the level `depth` below the top one. */
  function Capacity(k: nat, depth: nat): nat {
    var cap := Geometric(k, depth);
    if cap < MIN_LEVEL_CAPACITY then MIN_LEVEL_CAPACITY else cap
  }

  /** The top level holds `k` items, each level below two thirds of it, rounded down, and
      none less than eight. */
  lemma {:induction false} CapacityIs(k: nat, depth: nat)
    ensures Geometric(k, 0) == k
    ensures 3 * Geometric(k, depth + 1) <= 2 * Geometric(k, depth) < 3 * Geometric(k, depth + 1) + 3
    ensures Capacity(k, depth) == if Geometric(k, depth) <= 8 then 8 else Geometric(k, depth)
  {
  }

  ghost function CapacitySum(k: nat, low: nat, high: nat): nat
    requires low <= high
    decreases high - low
  {
    if low == high then 0 else Capacity(k, low) + CapacitySum(k, low + 1, high)
  }

  /** A geometric decay of 2/3, even when floored, sums to at most `3k`. */
  lemma {:induction false} CapacitiesFit(k: nat, low: nat, high: nat)
    requires low <= high
    ensures CapacitySum(k, low, high) <= 3 * Geometric(k, low) + 8 * (high - low)
    decreases high - low
  {
    if low < high {
      CapacitiesFit(k, low + 1, high);
    }
  }

  /** What level `i` may hold after a compression that began with `started` levels. */
  function Allowed(k: nat, started: nat, count: nat, i: nat): nat {
    if i + 1 < started then Capacity(k, started - 1 - i) else if i + 1 == count then k else 0
  }

  ghost predicate Compressed(k: nat, started: nat, levels: Levels, upTo: nat) {
    && upTo <= |levels| && started <= |levels|
    && (started < |levels| ==> |levels| <= upTo + 1)
    && forall i: nat :: i < upTo ==> |levels[i]| <= Allowed(k, started, |levels|, i)
  }

  lemma {:induction false} StoredPrefix(k: nat, started: nat, levels: Levels, i: nat)
    requires 0 < started && Compressed(k, started, levels, |levels|) && i < |levels|
    ensures Stored(levels[..i]) <= if i < started then CapacitySum(k, started - i, started) else CapacitySum(k, 1, started)
    decreases i
  {
    hide Capacity;
    if i > 0 {
      StoredPrefix(k, started, levels, i - 1);
      assert levels[..i][..i - 1] == levels[..i - 1];
      assert |levels[i - 1]| <= Allowed(k, started, |levels|, i - 1);
    }
  }

  /** After a whole compression at most `3k + 8 * levels` items are stored, even when it
      added several levels. */
  lemma {:induction false} SpaceBound(k: nat, started: nat, levels: Levels)
    requires MIN_LEVEL_CAPACITY <= k && 0 < started && Compressed(k, started, levels, |levels|)
    ensures Stored(levels) <= 3 * k + 8 * |levels|
  {
    hide Compressed, CapacitySum, Stored;
    assert started <= |levels| by { StartedBelow(k, started, levels); }
    var last := |levels| - 1;
    StoredPrefix(k, started, levels, last);
    StoredLast(levels);
    LastAllowed(k, started, levels);
    CapacitiesFit(k, 0, started);
    CapacitySumFirst(k, started);
  }

  lemma {:induction false} StartedBelow(k: nat, started: nat, levels: Levels)
    requires Compressed(k, started, levels, |levels|)
    ensures started <= |levels|
  {
  }

  lemma {:induction false} LastAllowed(k: nat, started: nat, levels: Levels)
    requires 0 < started && Compressed(k, started, levels, |levels|) && levels != []
    ensures |levels[|levels| - 1]| <= k
  {
    assert |levels[|levels| - 1]| <= Allowed(k, started, |levels|, |levels| - 1);
  }

  lemma {:induction false} StoredLast(levels: Levels)
    requires levels != []
    ensures Stored(levels) == Stored(levels[..|levels| - 1]) + |levels[|levels| - 1]|
  {
  }

  lemma {:induction false} CapacitySumFirst(k: nat, high: nat)
    requires MIN_LEVEL_CAPACITY <= k && 0 < high
    ensures CapacitySum(k, 0, high) == k + CapacitySum(k, 1, high)
  {
  }

  // --- what the levels promise of a stream ---

  ghost predicate Near(a: int, b: int, budget: nat) {
    -(budget as int) <= a - b <= budget
  }

  /** Every weighted rank is within `budget` of the true one. */
  ghost predicate RanksNear(levels: Levels, stream: seq<nat>, budget: nat) {
    forall x: nat :: Near(Rank(levels, x), CountLe(stream, x), budget)
  }

  ghost predicate DrawnFrom(levels: Levels, stream: seq<nat>) {
    forall i: nat, v :: i < |levels| && v in levels[i] ==> v in stream
  }

  ghost predicate Sound(levels: Levels, stream: seq<nat>, budget: nat) {
    && levels != []
    && RanksNear(levels, stream, budget)
    && DrawnFrom(levels, stream)
    && (stream != [] ==> 0 < Stored(levels))
  }

  lemma {:induction false} RankPushed(levels: Levels, v: nat, x: nat)
    requires levels != []
    ensures Rank(levels[0 := levels[0] + [v]], x) == Rank(levels, x) + if v <= x then 1 else 0
  {
    var after := levels[0 := levels[0] + [v]];
    assert after[1..] == levels[1..];
    CountLeConcat(levels[0], [v], x);
  }

  lemma {:induction false} StoredAt(levels: Levels, i: nat)
    requires i < |levels|
    ensures |levels[i]| <= Stored(levels)
  {
    if i + 1 < |levels| {
      StoredAt(levels[..|levels| - 1], i);
    }
  }

  lemma {:induction false} PushIsSound(levels: Levels, stream: seq<nat>, budget: nat, v: nat)
    requires Sound(levels, stream, budget)
    ensures Sound(levels[0 := levels[0] + [v]], stream + [v], budget)
  {
    hide Rank, CountLe, Stored;
    var after := levels[0 := levels[0] + [v]];
    forall x: nat
      ensures Near(Rank(after, x), CountLe(stream + [v], x), budget)
    {
      RankPushed(levels, v, x);
      CountLeConcat(stream, [v], x);
      OneLe(v, x);
      assert Near(Rank(levels, x), CountLe(stream, x), budget);
    }
    StoredAt(after, 0);
  }

  lemma {:induction false} OneLe(v: nat, x: nat)
    ensures CountLe([v], x) == if v <= x then 1 else 0
  {
    assert [v][..0] == [];
  }

  lemma {:induction false} RankTopped(levels: Levels, x: nat)
    ensures Rank(levels + [[]], x) == Rank(levels, x)
  {
    if levels != [] {
      assert (levels + [[]])[1..] == levels[1..] + [[]];
      RankTopped(levels[1..], x);
    }
  }

  /** An empty level on top changes nothing. */
  lemma {:induction false} TopIsSound(levels: Levels, stream: seq<nat>, budget: nat)
    requires Sound(levels, stream, budget)
    ensures Sound(levels + [[]], stream, budget)
  {
    hide Rank, CountLe;
    forall x: nat
      ensures Near(Rank(levels + [[]], x), CountLe(stream, x), budget)
    {
      RankTopped(levels, x);
      assert Near(Rank(levels, x), CountLe(stream, x), budget);
    }
    assert (levels + [[]])[..|levels|] == levels;
  }

  lemma {:induction false} CompactIsSound(levels: Levels, stream: seq<nat>, budget: nat, level: nat, bit: bool)
    requires Sound(levels, stream, budget) && level + 1 < |levels| && 1 < |levels[level]|
    ensures Sound(Compacted(levels, level, bit), stream, budget + Pow2(level))
  {
    hide Rank, CountLe, Stored, Promoted, Pow2;
    var after := Compacted(levels, level, bit);
    forall x: nat
      ensures Near(Rank(after, x), CountLe(stream, x), budget + Pow2(level))
    {
      CompactionError(levels, level, bit, x);
      assert Near(Rank(levels, x), CountLe(stream, x), budget);
    }
    PromotedSize(levels[level], bit);
    StoredAt(after, level + 1);
  }

  /** Level by level concatenation, as long as the longer side. */
  function Overlay(a: Levels, b: Levels): Levels {
    seq(if |a| < |b| then |b| else |a|, i requires 0 <= i =>
      (if i < |a| then a[i] else []) + (if i < |b| then b[i] else []))
  }

  lemma {:induction false} OverlayTail(a: Levels, b: Levels)
    requires a != [] && b != []
    ensures Overlay(a, b) != [] && Overlay(a, b)[0] == a[0] + b[0] && Overlay(a, b)[1..] == Overlay(a[1..], b[1..])
  {
  }

  lemma {:induction false} OverlayNothing(a: Levels)
    ensures Overlay(a, []) == a && Overlay([], a) == a
  {
    forall i | 0 <= i < |a|
      ensures Overlay(a, [])[i] == a[i] && Overlay([], a)[i] == a[i]
    {
      assert a[i] + [] == a[i] && [] + a[i] == a[i];
    }
  }

  lemma {:induction false} OverlayRank(a: Levels, b: Levels, x: nat)
    ensures Rank(Overlay(a, b), x) == Rank(a, x) + Rank(b, x)
    decreases |a|
  {
    hide Overlay, CountLe;
    if a == [] {
      OverlayNothing(b);
    } else if b == [] {
      OverlayNothing(a);
    } else {
      OverlayTail(a, b);
      OverlayRank(a[1..], b[1..], x);
      CountLeConcat(a[0], b[0], x);
    }
  }

  lemma {:induction false} SomeStored(levels: Levels) returns (i: nat)
    requires 0 < Stored(levels)
    ensures i < |levels| && levels[i] != []
    decreases |levels|
  {
    var last := |levels| - 1;
    if levels[last] != [] {
      i := last;
    } else {
      i := SomeStored(levels[..last]);
    }
  }

  lemma {:induction false} OverlayIsSound(a: Levels, b: Levels, sa: seq<nat>, sb: seq<nat>, ba: nat, bb: nat)
    requires Sound(a, sa, ba) && Sound(b, sb, bb)
    ensures Sound(Overlay(a, b), sa + sb, ba + bb)
  {
    hide Rank, CountLe, Stored;
    var both := Overlay(a, b);
    forall x: nat
      ensures Near(Rank(both, x), CountLe(sa + sb, x), ba + bb)
    {
      OverlayRank(a, b, x);
      CountLeConcat(sa, sb, x);
      assert Near(Rank(a, x), CountLe(sa, x), ba) && Near(Rank(b, x), CountLe(sb, x), bb);
    }
    if sa != [] {
      var i := SomeStored(a);
      StoredAt(both, i);
    } else if sb != [] {
      var i := SomeStored(b);
      StoredAt(both, i);
    }
  }

  // --- termination of a compression ---

  lemma {:induction false} StoredConcat(a: Levels, b: Levels)
    ensures Stored(a + b) == Stored(a) + Stored(b)
  {
    if b == [] {
      assert a + b == a;
    } else {
      assert (a + b)[..|a + b| - 1] == a + b[..|b| - 1];
      StoredConcat(a, b[..|b| - 1]);
    }
  }

  lemma {:induction false} StoredTwo(l: seq<nat>, rest: Levels)
    ensures Stored([l] + rest) == |l| + Stored(rest)
  {
    StoredConcat([l], rest);
    assert [l][..0] == [];
  }

  /** A compaction leaves fewer items from the next level on. */
  lemma {:induction false} FewerAbove(levels: Levels, level: nat, bit: bool)
    requires level + 1 < |levels| && 1 < |levels[level]|
    ensures Stored(Compacted(levels, level, bit)[level + 1..]) < Stored(levels[level..])
  {
    hide Promoted, Stored;
    var after := Compacted(levels, level, bit);
    PromotedSize(levels[level], bit);
    assert after[level + 1..] == [levels[level + 1] + Promoted(levels[level], bit)] + levels[level + 2..];
    assert levels[level..] == [levels[level]] + ([levels[level + 1]] + levels[level + 2..]);
    StoredTwo(levels[level + 1] + Promoted(levels[level], bit), levels[level + 2..]);
    StoredTwo(levels[level], [levels[level + 1]] + levels[level + 2..]);
    StoredTwo(levels[level + 1], levels[level + 2..]);
  }

  lemma {:induction false} NoMoreAbove(levels: Levels, level: nat)
    requires level < |levels|
    ensures Stored(levels[level + 1..]) <= Stored(levels[level..])
  {
    assert levels[level..] == [levels[level]] + levels[level + 1..];
    StoredTwo(levels[level], levels[level + 1..]);
  }

  lemma {:induction false} SameAbove(levels: Levels, level: nat)
    requires level <= |levels|
    ensures Stored((levels + [[]])[level..]) == Stored(levels[level..])
  {
    assert (levels + [[]])[level..] == levels[level..] + [[]];
    var top: Levels := [[]];
    StoredConcat(levels[level..], top);
    assert top[..0] == [];
  }

  // --- weighted listings ---

  datatype Weighted = Weighted(value: nat, weight: nat)

  function Weigh(items: seq<nat>, w: nat): seq<Weighted> {
    seq(|items|, i requires 0 <= i < |items| => Weighted(items[i], w))
  }

  ghost function WeightLe(s: seq<Weighted>, x: nat): nat {
    if s == [] then 0 else WeightLe(s[..|s| - 1], x) + if s[|s| - 1].value <= x then s[|s| - 1].weight else 0
  }

  function WeightOf(s: seq<Weighted>): nat {
    if s == [] then 0 else WeightOf(s[..|s| - 1]) + s[|s| - 1].weight
  }

  lemma {:induction false} WeightLeConcat(s: seq<Weighted>, t: seq<Weighted>, x: nat)
    ensures WeightLe(s + t, x) == WeightLe(s, x) + WeightLe(t, x)
  {
    if t == [] {
      assert s + t == s;
    } else {
      assert (s + t)[..|s + t| - 1] == s + t[..|t| - 1];
      WeightLeConcat(s, t[..|t| - 1], x);
    }
  }

  lemma {:induction false} WeighRank(items: seq<nat>, w: nat, x: nat)
    ensures WeightLe(Weigh(items, w), x) == w * CountLe(items, x)
  {
    if items != [] {
      var init := items[..|items| - 1];
      assert Weigh(items, w)[..|items| - 1] == Weigh(init, w);
      WeighRank(init, w, x);
      assert w * (CountLe(init, x) + 1) == w * CountLe(init, x) + w;
    }
  }

  lemma {:induction false} RankSnoc(levels: Levels, top: seq<nat>, x: nat)
    ensures Rank(levels + [top], x) == Rank(levels, x) + Pow2(|levels|) * CountLe(top, x)
  {
    hide CountLe;
    if levels == [] {
      assert (levels + [top])[1..] == [];
      assert Pow2(0) == 1;
    } else {
      assert (levels + [top])[1..] == levels[1..] + [top];
      RankSnoc(levels[1..], top, x);
      assert Pow2(|levels|) == 2 * Pow2(|levels| - 1);
      assert 2 * (Pow2(|levels| - 1) * CountLe(top, x)) == 2 * Pow2(|levels| - 1) * CountLe(top, x);
    }
  }

  /** All items with the weight of their level, level by level. */
  function Collect(levels: Levels): seq<Weighted> {
    if levels == [] then [] else Collect(levels[..|levels| - 1]) + Weigh(levels[|levels| - 1], Pow2(|levels| - 1))
  }

  lemma {:induction false} CollectRank(levels: Levels, x: nat)
    ensures WeightLe(Collect(levels), x) == Rank(levels, x)
  {
    hide Rank, WeightLe, CountLe, Weigh, Pow2;
    if levels == [] {
      NoRank(x);
    } else {
      var init, last := levels[..|levels| - 1], levels[|levels| - 1];
      CollectRank(init, x);
      WeighRank(last, Pow2(|init|), x);
      WeightLeConcat(Collect(init), Weigh(last, Pow2(|init|)), x);
      RankSnoc(init, last, x);
      assert levels == init + [last];
    }
  }

  lemma {:induction false} NoRank(x: nat)
    ensures Rank([], x) == 0 && WeightLe([], x) == 0
  {
  }

  lemma {:induction false} WeightLeAll(s: seq<Weighted>, x: nat)
    ensures WeightLe(s, x) <= WeightOf(s)
    ensures (forall i :: 0 <= i < |s| ==> s[i].value <= x) ==> WeightLe(s, x) == WeightOf(s)
    ensures (forall i :: 0 <= i < |s| ==> x < s[i].value) ==> WeightLe(s, x) == 0
  {
    if s != [] {
      WeightLeAll(s[..|s| - 1], x);
    }
  }

  lemma {:induction false} CollectedFrom(levels: Levels, i: nat)
    requires i < |Collect(levels)|
    ensures exists l: nat :: l < |levels| && Collect(levels)[i].value in levels[l]
    ensures Collect(levels)[i].weight > 0
  {
    hide Pow2;
    var init, last := levels[..|levels| - 1], levels[|levels| - 1];
    if i < |Collect(init)| {
      CollectedFrom(init, i);
      var l: nat :| l < |init| && Collect(init)[i].value in init[l];
      assert levels[l] == init[l];
    } else {
      assert Collect(levels)[i].value == last[i - |Collect(init)|];
    }
  }

  ghost predicate SortedByValue(s: seq<Weighted>) {
    forall i, j :: 0 <= i < j < |s| ==> s[i].value <= s[j].value
  }

  function InsertWeighted(s: seq<Weighted>, v: Weighted): (r: seq<Weighted>)
    ensures multiset(r) == multiset(s) + multiset{v}
  {
    if s == [] || s[|s| - 1].value <= v.value then s + [v]
    else
      assert s == s[..|s| - 1] + [s[|s| - 1]];
      InsertWeighted(s[..|s| - 1], v) + [s[|s| - 1]]
  }

  function SortWeighted(s: seq<Weighted>): (r: seq<Weighted>)
    ensures multiset(r) == multiset(s)
  {
    if s == [] then []
    else
      assert s == s[..|s| - 1] + [s[|s| - 1]];
      InsertWeighted(SortWeighted(s[..|s| - 1]), s[|s| - 1])
  }

  ghost predicate AllBelow(s: seq<Weighted>, bound: nat) {
    forall i :: 0 <= i < |s| ==> s[i].value <= bound
  }

  lemma {:induction false} BelowSnoc(s: seq<Weighted>, v: Weighted, bound: nat)
    ensures AllBelow(s + [v], bound) <==> AllBelow(s, bound) && v.value <= bound
    ensures SortedByValue(s) && AllBelow(s, v.value) ==> SortedByValue(s + [v])
  {
    var r := s + [v];
    assert forall i :: 0 <= i < |s| ==> r[i] == s[i];
    assert r[|s|] == v;
  }

  lemma {:induction false} InsertedBelow(s: seq<Weighted>, v: Weighted, bound: nat)
    requires v.value <= bound && AllBelow(s, bound)
    ensures AllBelow(InsertWeighted(s, v), bound)
  {
    if s != [] && s[|s| - 1].value > v.value {
      var init, last := s[..|s| - 1], s[|s| - 1];
      InsertedBelow(init, v, bound);
      BelowSnoc(InsertWeighted(init, v), last, bound);
    } else {
      BelowSnoc(s, v, bound);
    }
  }

  lemma {:induction false} InsertWeightedSorts(s: seq<Weighted>, v: Weighted)
    requires SortedByValue(s)
    ensures SortedByValue(InsertWeighted(s, v))
  {
    if s != [] && s[|s| - 1].value > v.value {
      var init, last := s[..|s| - 1], s[|s| - 1];
      InsertWeightedSorts(init, v);
      InsertedBelow(init, v, last.value);
      BelowSnoc(InsertWeighted(init, v), last, last.value);
    }
  }

  lemma {:induction false} InsertedWeight(s: seq<Weighted>, v: Weighted, x: nat)
    ensures WeightLe(InsertWeighted(s, v), x) == WeightLe(s, x) + if v.value <= x then v.weight else 0
  {
    if s == [] || s[|s| - 1].value <= v.value {
      WeightLeConcat(s, [v], x);
    } else {
      InsertedWeight(s[..|s| - 1], v, x);
      WeightLeConcat(InsertWeighted(s[..|s| - 1], v), [s[|s| - 1]], x);
    }
  }

  lemma {:induction false} SortWeightedSorts(s: seq<Weighted>, x: nat)
    ensures SortedByValue(SortWeighted(s)) && WeightLe(SortWeighted(s), x) == WeightLe(s, x)
  {
    hide WeightLe;
    if s != [] {
      SortWeightedSorts(s[..|s| - 1], x);
      InsertWeightedSorts(SortWeighted(s[..|s| - 1]), s[|s| - 1]);
      InsertedWeight(SortWeighted(s[..|s| - 1]), s[|s| - 1], x);
      WeightLeSnoc(s, x);
    }
  }

  lemma {:induction false} WeightLeSnoc(s: seq<Weighted>, x: nat)
    requires s != []
    ensures WeightLe(s, x) == WeightLe(s[..|s| - 1], x) + if s[|s| - 1].value <= x then s[|s| - 1].weight else 0
  {
  }

  lemma {:induction false} SortedFrom(s: seq<Weighted>, i: nat)
    requires i < |SortWeighted(s)|
    ensures |SortWeighted(s)| == |s| && SortWeighted(s)[i] in s
  {
    assert |multiset(SortWeighted(s))| == |multiset(s)|;
    assert SortWeighted(s)[i] in multiset(SortWeighted(s));
  }

  /** `v` is the smallest value whose weighted rank reaches `target`. */
  ghost predicate ReachesRank(levels: Levels, v: nat, target: nat) {
    target <= Rank(levels, v) && forall u: nat :: u < v ==> Rank(levels, u) < target
  }

  /** Scanning values in order, the first to reach the target has the target's rank. */
  lemma {:induction false} ScanReaches(levels: Levels, i: nat, target: nat)
    requires var s := SortWeighted(Collect(levels));
      i < |s| && WeightOf(s[..i]) < target <= WeightOf(s[..i + 1])
    ensures var s := SortWeighted(Collect(levels));
      ReachesRank(levels, s[i].value, target) && exists l: nat :: l < |levels| && s[i].value in levels[l]
  {
    hide WeightLe, WeightOf, Rank, Collect, SortWeighted;
    var s := SortWeighted(Collect(levels));
    SortedFrom(Collect(levels), i);
    var j :| 0 <= j < |Collect(levels)| && Collect(levels)[j] == s[i];
    CollectedFrom(levels, j);
    SortedRank(levels, s[i].value);
    PrefixWeights(s, i + 1, s[i].value);
    forall u: nat | u < s[i].value
      ensures Rank(levels, u) < target
    {
      SortedRank(levels, u);
      PrefixWeights(s, i, u);
    }
  }

  lemma {:induction false} SortedRank(levels: Levels, x: nat)
    ensures SortedByValue(SortWeighted(Collect(levels)))
    ensures WeightLe(SortWeighted(Collect(levels)), x) == Rank(levels, x)
  {
    SortWeightedSorts(Collect(levels), x);
    CollectRank(levels, x);
  }

  lemma {:induction false} PrefixWeights(s: seq<Weighted>, i: nat, x: nat)
    requires SortedByValue(s) && i <= |s|
    ensures i > 0 && s[i - 1].value <= x ==> WeightOf(s[..i]) <= WeightLe(s, x)
    ensures i < |s| && x < s[i].value ==> WeightLe(s, x) <= WeightOf(s[..i])
  {
    hide WeightLe, WeightOf;
    var low, high := s[..i], s[i..];
    assert s == low + high;
    WeightLeConcat(low, high, x);
    WeightLeAll(low, x);
    WeightLeAll(high, x);
    if i > 0 && s[i - 1].value <= x {
      forall j | 0 <= j < |low|
        ensures low[j].value <= x
      {
        assert low[j] == s[j];
      }
    }
    if i < |s| && x < s[i].value {
      forall j | 0 <= j < |high|
        ensures x < high[j].value
      {
        assert high[j] == s[i + j];
      }
    }
  }

  // --- what a quantile query promises ---

  function Ceil(r: real): int {
    -(-r).Floor
  }

  function Clamp(q: real): real {
    if q < 0.0 then 0.0 else if q > 1.0 then 1.0 else q
  }

  function Scaled(q: real, total: nat): real {
    Clamp(q) * total as real
  }

  function Target(q: real, total: nat): int {
    var t := Ceil(Scaled(q, total));
    if t < 1 then 1 else t
  }

  lemma {:induction false} Shrinks(c: real, t: real)
    requires 0.0 <= c <= 1.0 && 0.0 <= t
    ensures c * t <= t
  {
    assert (1.0 - c) * t >= 0.0;
    assert (1.0 - c) * t == t - c * t;
  }

  lemma {:induction false} CeilBelow(r: real, n: int)
    requires r <= n as real
    ensures Ceil(r) <= n
  {
    var y := -r;
    assert y < (y.Floor + 1) as real;
    assert (-n) as real < (y.Floor + 1) as real;
  }

  /** The target rank never exceeds the total weight, so the scan always finds a value. */
  lemma {:induction false} TargetFits(q: real, total: nat)
    requires 0 < total
    ensures 1 <= Target(q, total) <= total
  {
    hide Ceil, Scaled;
    ScaledFits(q, total);
    CeilBelow(Scaled(q, total), total);
  }

  lemma {:induction false} ScaledFits(q: real, total: nat)
    ensures Scaled(q, total) <= total as real
  {
    Shrinks(Clamp(q), total as real);
  }

  /** `v` answers the rank `x` in what is kept: its weighted rank reaches `x`, and a smaller
      value has nothing kept up to it or misses `x`. */
  ghost predicate AnswersKept(levels: Levels, x: real, v: nat) {
    && 1 <= Rank(levels, v) && x <= Rank(levels, v) as real
    && forall u: nat :: u < v ==> Rank(levels, u) == 0 || Rank(levels, u) as real < x
  }

  /** The same against the true ranks, give or take `slack`. */
  ghost predicate Answers(stream: seq<nat>, x: real, slack: nat, v: nat) {
    && 1 <= CountLe(stream, v) + slack && x <= (CountLe(stream, v) + slack) as real
    && forall u: nat :: u < v ==> CountLe(stream, u) <= slack || (CountLe(stream, u) as real) < x + slack as real
  }

  /** The fraction `q` of so much weight. */
  function Part(q: real, total: nat): real {
    q * total as real
  }

  /** `v` answers the fraction `q` of the weight kept; outside the unit interval, its nearer end. */
  ghost predicate QuantileOfKept(levels: Levels, q: real, v: nat) {
    && (0.0 <= q <= 1.0 ==> AnswersKept(levels, Part(q, TotalWeight(levels)), v))
    && (q < 0.0 ==> AnswersKept(levels, 0.0, v))
    && (q > 1.0 ==> AnswersKept(levels, TotalWeight(levels) as real, v))
  }

  /** `v` answers the fraction `q` of the stream's length, give or take `slack`. */
  ghost predicate QuantileOfStream(stream: seq<nat>, q: real, slack: nat, v: nat) {
    && (0.0 <= q <= 1.0 ==> Answers(stream, Part(q, |stream|), slack, v))
    && (q < 0.0 ==> Answers(stream, 0.0, slack, v))
    && (q > 1.0 ==> Answers(stream, |stream| as real, slack, v))
  }

  lemma {:induction false} CeilMeans(r: real, n: int)
    ensures Ceil(r) <= n <==> r <= n as real
  {
    var y := -r;
    assert y.Floor as real <= y < (y.Floor + 1) as real;
    assert (-n) as real == -(n as real);
    if r <= n as real {
      assert (-n) as real < (y.Floor + 1) as real;
    } else {
      assert (y.Floor as real) < (-n) as real;
    }
  }

  /** What reaches the target rank of `q` answers the fraction `q` of the weight kept, and a
      `q` outside the unit interval the nearer end of it. */
  lemma {:induction false} TargetAnswers(levels: Levels, q: real, v: nat)
    requires 0 < TotalWeight(levels) && ReachesRank(levels, v, Target(q, TotalWeight(levels)))
    ensures QuantileOfKept(levels, q, v)
  {
    hide Rank, TotalWeight, Ceil;
    var total := TotalWeight(levels);
    assert q < 0.0 ==> Scaled(q, total) == 0.0;
    assert q > 1.0 ==> Scaled(q, total) == total as real;
    AnswersScaled(levels, Scaled(q, total), Target(q, total), v);
  }

  lemma {:induction false} AnswersScaled(levels: Levels, x: real, target: int, v: nat)
    requires target == (if Ceil(x) < 1 then 1 else Ceil(x)) && ReachesRank(levels, v, target)
    ensures AnswersKept(levels, x, v)
  {
    hide Rank, Ceil;
    CeilMeans(x, Rank(levels, v));
    forall u: nat | u < v
      ensures Rank(levels, u) == 0 || Rank(levels, u) as real < x
    {
      CeilMeans(x, Rank(levels, u));
    }
  }

  /** An answer in what is kept is one for the stream, within the budget. */
  lemma {:induction false} AnswersNear(levels: Levels, stream: seq<nat>, budget: nat, x: real, v: nat)
    requires RanksNear(levels, stream, budget) && AnswersKept(levels, x, v)
    ensures Answers(stream, x, budget, v)
  {
    hide Rank, CountLe;
    assert Near(Rank(levels, v), CountLe(stream, v), budget);
    forall u: nat | u < v
      ensures CountLe(stream, u) <= budget || (CountLe(stream, u) as real) < x + budget as real
    {
      assert Near(Rank(levels, u), CountLe(stream, u), budget);
    }
  }

  /** Rank targets a budget apart have answers another budget apart. */
  lemma {:induction false} AnswersShift(stream: seq<nat>, x: real, y: real, slack: nat, shift: nat, v: nat)
    requires Answers(stream, x, slack, v) && x - shift as real <= y <= x + shift as real
    ensures Answers(stream, y, slack + shift, v)
  {
    hide CountLe;
    forall u: nat | u < v
      ensures CountLe(stream, u) <= slack + shift || (CountLe(stream, u) as real) < y + (slack + shift) as real
    {
    }
  }

  /** The fraction `q` of the stream's length lies within the budget of that of the weight kept. */
  lemma {:induction false} FractionNear(q: real, total: nat, n: nat, budget: nat)
    requires 0.0 <= q <= 1.0 && Near(total, n, budget)
    ensures Part(q, total) - budget as real <= Part(q, n) <= Part(q, total) + budget as real
  {
    var d := n as real - total as real;
    assert q * n as real == q * total as real + q * d;
    Shrinks(q, budget as real);
    if d >= 0.0 {
      FractionBelow(q, d, budget as real);
    } else {
      FractionBelow(q, -d, budget as real);
      assert q * d == -(q * (-d));
    }
  }

  lemma {:induction false} FractionBelow(q: real, d: real, b: real)
    requires 0.0 <= q <= 1.0 && 0.0 <= d <= b
    ensures 0.0 <= q * d <= b
  {
    assert q * d >= 0.0;
    Shrinks(q, d);
  }

  /** A quantile of what is kept is one of the stream, within twice the budget. */
  lemma {:induction false} StreamQuantile(levels: Levels, stream: seq<nat>, budget: nat, q: real, v: nat)
    requires RanksNear(levels, stream, budget) && DrawnFrom(levels, stream) && QuantileOfKept(levels, q, v)
    ensures QuantileOfStream(stream, q, 2 * budget, v)
  {
    hide Rank, CountLe, TotalWeight, Answers, AnswersKept, RanksNear, DrawnFrom, Part;
    var total := TotalWeight(levels);
    TotalIsNear(levels, stream, budget);
    if q < 0.0 {
      NearAnswer(levels, stream, budget, 0.0, 0.0, v);
    } else if q > 1.0 {
      NearAnswer(levels, stream, budget, total as real, |stream| as real, v);
    } else {
      FractionNear(q, total, |stream|, budget);
      NearAnswer(levels, stream, budget, Part(q, total), Part(q, |stream|), v);
    }
  }

  lemma {:induction false} NearAnswer(levels: Levels, stream: seq<nat>, budget: nat, x: real, y: real, v: nat)
    requires RanksNear(levels, stream, budget) && AnswersKept(levels, x, v)
    requires x - budget as real <= y <= x + budget as real
    ensures Answers(stream, y, 2 * budget, v)
  {
    hide Rank, CountLe, Answers, AnswersKept, RanksNear;
    AnswersNear(levels, stream, budget, x, v);
    AnswersShift(stream, x, y, budget, budget, v);
    assert budget + budget == 2 * budget;
  }

  /** Whatever reaches the target rank has a true rank within the budget: enough of the
      stream is at most `v`, and not too much is smaller. */
  lemma {:induction false} ReachedRankIsNear(levels: Levels, stream: seq<nat>, budget: nat, v: nat, target: nat)
    requires RanksNear(levels, stream, budget) && ReachesRank(levels, v, target)
    ensures target <= CountLe(stream, v) + budget
    ensures forall u: nat :: u < v ==> CountLe(stream, u) < target + budget
  {
    hide Rank, CountLe;
    assert Near(Rank(levels, v), CountLe(stream, v), budget);
    forall u: nat | u < v
      ensures CountLe(stream, u) < target + budget
    {
      assert Near(Rank(levels, u), CountLe(stream, u), budget);
    }
  }

  lemma {:induction false} Above(s: seq<nat>) returns (x: nat)
    ensures AllAtMost(s, x)
  {
    if s == [] {
      x := 0;
    } else {
      var y := Above(s[..|s| - 1]);
      x := if y < s[|s| - 1] then s[|s| - 1] else y;
    }
  }

  lemma {:induction false} RankBelowTotal(levels: Levels, x: nat)
    ensures Rank(levels, x) <= TotalWeight(levels)
    ensures LevelsAtMost(levels, x) ==> Rank(levels, x) == TotalWeight(levels)
  {
    hide CountLe, AllAtMost;
    if levels != [] {
      CountLeFits(levels[0], x);
      RankBelowTotal(levels[1..], x);
    }
  }

  /** The total weight kept is within the budget of the number of items inserted. */
  lemma {:induction false} TotalIsNear(levels: Levels, stream: seq<nat>, budget: nat)
    requires RanksNear(levels, stream, budget) && DrawnFrom(levels, stream)
    ensures Near(TotalWeight(levels), |stream|, budget)
  {
    hide Rank, CountLe, TotalWeight;
    var x := Above(stream);
    forall i, j | 0 <= i < |levels| && 0 <= j < |levels[i]|
      ensures levels[i][j] <= x
    {
      assert levels[i][j] in stream;
    }
    RankBelowTotal(levels, x);
    CountLeFits(stream, x);
    assert Near(Rank(levels, x), CountLe(stream, x), budget);
  }

  lemma {:induction false} TotalCollected(levels: Levels)
    ensures WeightOf(SortWeighted(Collect(levels))) == TotalWeight(levels)
  {
    hide WeightLe, WeightOf, Rank, Collect, SortWeighted, TotalWeight;
    var all, s := Collect(levels), SortWeighted(Collect(levels));
    var x := AboveAll(levels, s);
    WeightLeAll(s, x);
    SortedRank(levels, x);
    RankBelowTotal(levels, x);
  }

  lemma {:induction false} AboveAll(levels: Levels, s: seq<Weighted>) returns (x: nat)
    ensures LevelsAtMost(levels, x)
    ensures forall i :: 0 <= i < |s| ==> s[i].value <= x
  {
    var values := seq(|s|, i requires 0 <= i < |s| => s[i].value);
    x := Above(values);
    assert forall i :: 0 <= i < |s| ==> values[i] == s[i].value;
    var y := AboveLevels(levels);
    x := if x < y then y else x;
  }

  lemma {:induction false} AboveLevels(levels: Levels) returns (x: nat)
    ensures LevelsAtMost(levels, x)
  {
    if levels == [] {
      x := 0;
    } else {
      var init, last := levels[..|levels| - 1], levels[|levels| - 1];
      var y := AboveLevels(init);
      var z := Above(last);
      x := if y < z then z else y;
      forall i | 0 <= i < |levels|
        ensures AllAtMost(levels[i], x)
      {
        if i < |init| {
          assert AllAtMost(init[i], y);
        }
      }
    }
  }
}

/** The sketch object. `stream` is everything inserted here or in a merged sketch, and
    `compactions` the levels of all compactions done to it, in order. */
module KllSketches {
  import opened Arithmetic
  import opened HashSpecs
  import opened KllBudget
  import opened KllSpec
  import opened Options

  class KllSketch {
    const k: nat
    const hashSpec: HashSpec
    const splitmix: nat -> nat
    const xor: (nat, nat) -> nat
    var levels: Levels
    var n: nat
    var rngState: nat
    var updates: nat
    ghost var stream: seq<nat>
    ghost var compactions: seq<nat>

    ghost predicate Valid()
      reads this
    {
      && MIN_LEVEL_CAPACITY <= k && n == |stream|
      && Sound(levels, stream, Cost(compactions))
      && Accounted(k, levels, n, compactions)
    }

    function Value(): State
      reads this
    {
      State(levels, rngState)
    }

    constructor (k: nat, hashSpec: HashSpec, splitmix: nat -> nat, xor: (nat, nat) -> nat, rngState: nat)
      requires MIN_LEVEL_CAPACITY <= k
      ensures Valid() && levels == [[]] && stream == [] && compactions == [] && updates == 0
      ensures this.k == k && this.hashSpec == hashSpec
    {
      this.k, this.hashSpec, this.splitmix, this.xor := k, hashSpec, splitmix, xor;
      levels, n, this.rngState, updates := [[]], 0, rngState, 0;
      stream, compactions := [], [];
      new;
      EmptyIsSound();
      EmptyAccounted(k);
    }

    /** The geometric decay, level by level below the top. */
    method LevelCapacity(level: nat) returns (cap: nat)
      requires level < |levels|
      ensures cap == Capacity(k, |levels| - 1 - level)
    {
      var depth := |levels| - 1 - level;
      cap := k;
      for i := 0 to depth
        invariant cap == Geometric(k, i)
      {
        cap := cap * CAPACITY_DECAY_NUM / CAPACITY_DECAY_DEN;
      }
      cap := if cap < MIN_LEVEL_CAPACITY then MIN_LEVEL_CAPACITY else cap;
    }

    method NextBit() returns (bit: bool)
      modifies this`rngState
      ensures rngState == splitmix(old(rngState)) && bit == (rngState % 2 == 1)
    {
      rngState := splitmix(rngState);
      bit := rngState % 2 == 1;
    }

    /** `own` are the levels this insert compacted: none exactly when every level fits. */
    method Insert(value: nat) returns (ghost own: seq<nat>)
      requires Valid()
      modifies this
      ensures Valid() && stream == old(stream) + [value] && updates == old(updates) + 1
      ensures old(levels) != [] && compactions == old(compactions) + own
      ensures Pass(Config(k, splitmix), State(Pushed(old(levels), value), old(rngState)), 0, own, Value())
      ensures own == [] <==> Fits(k, Pushed(old(levels), value), 0)
      ensures Stored(levels) <= 3 * k + 8 * |levels|
    {
      hide Sound, Stored, Pass, Cost, Accounted, Fits;
      n, updates := n + 1, updates + 1;
      HasLevel(levels, stream, Cost(compactions));
      PushIsSound(levels, stream, Cost(compactions), value);
      PushAccounted(k, levels, |stream|, compactions, value);
      levels := levels[0 := levels[0] + [value]];
      stream := stream + [value];
      own := Compress();
    }

    /** One pass over the levels, as specified. */
    method Compress() returns (ghost own: seq<nat>)
      requires Valid()
      modifies this`levels, this`rngState, this`compactions
      ensures Valid() && compactions == old(compactions) + own
      ensures Pass(Config(k, splitmix), old(Value()), 0, own, Value())
      ensures own == [] <==> Fits(k, old(levels), 0)
      ensures Stored(levels) <= 3 * k + 8 * |levels|
    {
      hide Sound, Accounted, Stored, Capacity, Compacted, Pass, Cost, Fits, InPass, CompactedAt, Topped;
      ghost var c, start, before := Config(k, splitmix), Value(), compactions;
      StartPass(c, start, stream, before);
      own := [];
      var level := 0;
      while level < |levels|
        invariant n == |stream| && compactions == before + own && level <= |levels|
        invariant InPass(c, start, Value(), stream, before, own, level)
        decreases Stored(levels[level..]), |levels| - level
      {
        var cap := LevelCapacity(level);
        if |levels[level]| <= cap {
          SkipLevel(c, start, Value(), stream, before, own, level);
          level := level + 1;
          continue;
        }
        CompactLevel(c, start, Value(), stream, before, own, level);
        CompactedState(c, Value(), level);
        if level + 1 == |levels| {
          levels := levels + [[]];
        }
        var bit := NextBit();
        var buf := levels[level];
        levels := levels[level := []];
        levels := levels[level + 1 := levels[level + 1] + Promoted(buf, bit)];
        compactions, own := compactions + [level], own + [level];
        level := level + 1;
      }
      EndPass(c, start, Value(), stream, before, own, level);
    }

    /** Level by level concatenation with a sketch of the same size and hash, and then a
        compression, whose compactions come on top of those of both sides. */
    method MergeFrom(other: KllSketch) returns (ok: bool, ghost own: seq<nat>)
      requires Valid() && other.Valid() && other != this
      modifies this
      ensures Valid() && (ok <==> other.k == k && other.hashSpec == hashSpec)
      ensures ok ==> stream == old(stream) + other.stream && compactions == old(compactions) + other.compactions + own
      ensures ok ==> Pass(Config(k, splitmix),
                          State(Overlay(old(levels), other.levels), splitmix(xor(old(rngState), other.rngState))), 0,
                          own, Value())
      ensures ok ==> Stored(levels) <= 3 * k + 8 * |levels|
      ensures !ok ==> Value() == old(Value()) && stream == old(stream) && compactions == old(compactions)
      ensures updates == old(updates) + (if ok then other.updates else 0)
    {
      hide Sound, Stored, Compressed, Pass, Cost, Accounted, Fits;
      ok, own := other.k == k && other.hashSpec == hashSpec, [];
      if !ok {
        return;
      }
      OverlayIsSound(levels, other.levels, stream, other.stream, Cost(compactions), Cost(other.compactions));
      OverlayAccounted(k, levels, other.levels, n, other.n, compactions, other.compactions);
      SpentConcat(compactions, other.compactions, 0);
      AddLevels(other.levels);
      n, updates := n + other.n, updates + other.updates;
      stream, compactions := stream + other.stream, compactions + other.compactions;
      rngState := splitmix(xor(rngState, other.rngState));
      own := Compress();
    }

    method AddLevels(theirs: Levels)
      modifies this`levels
      ensures levels == Overlay(old(levels), theirs)
    {
      while |levels| < |theirs|
        invariant |old(levels)| <= |levels| && (|levels| <= |theirs| || levels == old(levels))
        invariant forall i: nat :: i < |levels| ==> levels[i] == if i < |old(levels)| then old(levels)[i] else []
      {
        levels := levels + [[]];
      }
      for level := 0 to |theirs|
        invariant |levels| == |Overlay(old(levels), theirs)|
        invariant forall i: nat :: i < |levels| && i < level ==> levels[i] == Overlay(old(levels), theirs)[i]
        invariant forall i: nat :: level <= i < |levels| ==> levels[i] == if i < |old(levels)| then old(levels)[i] else []
      {
        levels := levels[level := levels[level] + theirs[level]];
      }
      forall i | 0 <= i < |levels|
        ensures levels[i] == Overlay(old(levels), theirs)[i]
      {
        if i >= |theirs| {
          assert old(levels)[i] + [] == old(levels)[i];
        }
      }
    }

    /** The value at a quantile: an inserted value that answers the fraction `q` of the weight
        kept, and of the stream within twice the cost of all compactions, which is bounded by
        the length of the stream and zero up to `k` items. `None` only when nothing was
        inserted. */
    method Quantile(q: real) returns (r: Option<nat>)
      requires Valid()
      ensures r.None? <==> n == 0
      ensures r.Some? ==> r.value in stream && ReachesRank(levels, r.value, Target(q, TotalWeight(levels)))
      ensures r.Some? ==> Target(q, TotalWeight(levels)) <= CountLe(stream, r.value) + Cost(compactions)
      ensures r.Some? ==> forall u: nat :: u < r.value ==>
                            CountLe(stream, u) < Target(q, TotalWeight(levels)) + Cost(compactions)
      ensures r.Some? ==> QuantileOfKept(levels, q, r.value)
      ensures r.Some? ==> QuantileOfStream(stream, q, 2 * Cost(compactions), r.value)
      ensures levels != [] && CostWithin(k, |levels|, n, Cost(compactions))
      ensures n <= k ==> Cost(compactions) == 0
    {
      hide Stored, CountLe, Rank, TotalWeight, Target, WeightOf, Pow2, SortWeighted, ReachesRank, Weigh;
      hide Accounted, Cost, CostWithin, QuantileOfKept, QuantileOfStream;
      CostFits(k, levels, n, compactions);
      if n <= k {
        ExactWhileSmall(k, levels, n, compactions);
      }
      if n == 0 {
        return None;
      }
      var weighted: seq<Weighted> := [];
      for level := 0 to |levels|
        invariant weighted == Collect(levels[..level])
      {
        assert levels[..level + 1][..level] == levels[..level];
        weighted := weighted + Weigh(levels[level], Pow2(level));
      }
      assert levels[..|levels|] == levels;
      weighted := SortWeighted(weighted);
      TotalCollected(levels);
      SomeWeight(levels);
      var total := WeightOf(weighted);
      var target := Target(q, total);
      TargetFits(q, total);
      var acc, i := 0, 0;
      NoWeight(weighted);
      while i < |weighted|
        invariant 0 <= i <= |weighted| && acc == WeightOf(weighted[..i]) < target
      {
        NextWeight(weighted, i);
        acc := acc + weighted[i].weight;
        if acc >= target {
          ScanReaches(levels, i, target);
          ReachedRankIsNear(levels, stream, Cost(compactions), weighted[i].value, target);
          TargetAnswers(levels, q, weighted[i].value);
          StreamQuantile(levels, stream, Cost(compactions), q, weighted[i].value);
          return Some(weighted[i].value);
        }
        i := i + 1;
      }
      assert false;
    }

    /** The estimated rank, as a fraction of the weight kept. */
    method RankOf(value: nat) returns (r: real)
      requires Valid()
      ensures n == 0 ==> r == 0.0
      ensures n > 0 ==> 0 < TotalWeight(levels) && r == Rank(levels, value) as real / TotalWeight(levels) as real
    {
      hide Stored, CountLe, Rank, TotalWeight, Pow2, RanksNear, Accounted, Cost;
      if n == 0 {
        return 0.0;
      }
      var le, total := 0, 0;
      NoRanks(value);
      for level := 0 to |levels|
        invariant le == Rank(levels[..level], value) && total == TotalWeight(levels[..level])
      {
        var w := Pow2(level);
        var count, all := 0, 0;
        CountEmpty(levels[level], value);
        for i := 0 to |levels[level]|
          invariant count == w * CountLe(levels[level][..i], value) && all == w * i
        {
          CountNext(levels[level], i, value, w);
          all := all + w;
          if levels[level][i] <= value {
            count := count + w;
          }
        }
        assert levels[level][..|levels[level]|] == levels[level];
        assert levels[..level + 1] == levels[..level] + [levels[level]];
        RankSnoc(levels[..level], levels[level], value);
        TotalSnoc(levels[..level], levels[level]);
        le, total := le + count, total + all;
      }
      assert levels[..|levels|] == levels;
      SomeWeight(levels);
      r := le as real / total as real;
    }
  }

  // --- steps of a compression ---

  lemma {:induction false} EmptyIsSound()
    ensures Sound([[]], [], 0)
  {
    var levels: Levels := [[]];
    forall x: nat
      ensures Near(Rank(levels, x), CountLe([], x), 0)
    {
      assert levels[1..] == [];
      NoneLe(x);
    }
  }

  lemma {:induction false} HasLevel(levels: Levels, stream: seq<nat>, budget: nat)
    requires Sound(levels, stream, budget)
    ensures levels != []
  {
  }

  lemma {:induction false} StartCompress(k: nat, levels: Levels)
    ensures Compressed(k, |levels|, levels, 0)
  {
  }

  lemma {:induction false} CapacityAtLeast(k: nat, depth: nat)
    ensures MIN_LEVEL_CAPACITY <= Capacity(k, depth)
  {
  }

  lemma {:induction false} KeepLevel(k: nat, started: nat, levels: Levels, level: nat)
    requires MIN_LEVEL_CAPACITY <= k && 0 < started && Compressed(k, started, levels, level) && level < |levels|
    requires |levels[level]| <= Capacity(k, |levels| - 1 - level)
    ensures Compressed(k, started, levels, level + 1)
  {
  }

  /** The state after a compaction, in the order the fields are written. */
  lemma {:induction false} CompactedState(c: Config, s: State, level: nat)
    requires level < |s.levels|
    ensures var rng, levels := c.splitmix(s.rng), if level + 1 == |s.levels| then s.levels + [[]] else s.levels;
      CompactedAt(c, s, level)
      == State(levels[level := []][level + 1 := levels[level := []][level + 1] + Promoted(levels[level], rng % 2 == 1)], rng)
  {
  }

  lemma {:induction false} TopOverflows(k: nat)
    requires MIN_LEVEL_CAPACITY <= k
    ensures Capacity(k, 0) == k
  {
  }

  /** A level that overflows has what a compaction takes, also under a new top. */
  lemma {:induction false} TakenAfter(k: nat, before: Levels, levels: Levels, level: nat)
    requires level < |before| <= |levels| && before[level] == levels[level]
    requires Capacity(k, |before| - 1 - level) < |before[level]|
    ensures Taken(k, |levels|, level) <= |levels[level]|
  {
    TakenShrinks(k, |before|, |levels|, level);
  }

  /** The compacted level is empty; a new top was added only above the last level. */
  lemma {:induction false} ClearLevel(k: nat, started: nat, before: Levels, levels: Levels, level: nat, bit: bool)
    requires Compressed(k, started, before, level) && level + 1 < |levels|
    requires levels == before || (level + 1 == |before| && levels == before + [[]])
    ensures Compressed(k, started, Compacted(levels, level, bit), level + 1)
  {
    hide Promoted, Capacity;
    var after := Compacted(levels, level, bit);
    forall i: nat | i < level + 1
      ensures |after[i]| <= Allowed(k, started, |after|, i)
    {
      if i < level {
        assert |before[i]| <= Allowed(k, started, |before|, i);
      }
    }
  }

  // --- a pass under way ---

  /** Before the level `level` of a pass that began at `start` and did `own` so far. */
  ghost predicate InPass(c: Config, start: State, s: State, stream: seq<nat>, before: seq<nat>, own: seq<nat>, level: nat) {
    && MIN_LEVEL_CAPACITY <= c.k && start.levels != []
    && Sound(s.levels, stream, Cost(before + own))
    && Accounted(c.k, s.levels, |stream|, before + own)
    && Compressed(c.k, |start.levels|, s.levels, level)
    && Continues(c, start, s, level, own)
  }

  lemma {:induction false} StartPass(c: Config, start: State, stream: seq<nat>, before: seq<nat>)
    requires MIN_LEVEL_CAPACITY <= c.k && Sound(start.levels, stream, Cost(before))
    requires Accounted(c.k, start.levels, |stream|, before)
    ensures InPass(c, start, start, stream, before, [], 0)
  {
    hide Sound, Accounted, Compressed, Continues, Cost;
    HasLevel(start.levels, stream, Cost(before));
    StartCompress(c.k, start.levels);
    PassStarts(c, start);
    assert before + [] == before;
  }

  lemma {:induction false} SkipLevel(c: Config, start: State, s: State, stream: seq<nat>, before: seq<nat>,
                                     own: seq<nat>, level: nat)
    requires InPass(c, start, s, stream, before, own, level) && level < |s.levels| && FitsAt(c.k, s.levels, level)
    ensures InPass(c, start, s, stream, before, own, level + 1)
    ensures Stored(s.levels[level + 1..]) <= Stored(s.levels[level..])
  {
    hide Sound, Accounted, Compressed, Continues, Cost, Stored;
    KeepLevel(c.k, |start.levels|, s.levels, level);
    NoMoreAbove(s.levels, level);
    PassKeeps(c, start, s, level, own);
  }

  lemma {:induction false} CompactLevel(c: Config, start: State, s: State, stream: seq<nat>, before: seq<nat>,
                                        own: seq<nat>, level: nat)
    requires InPass(c, start, s, stream, before, own, level) && level < |s.levels| && !FitsAt(c.k, s.levels, level)
    ensures var after := CompactedAt(c, s, level);
      && InPass(c, start, after, stream, before, own + [level], level + 1)
      && level + 1 < |after.levels| && Stored(after.levels[level + 1..]) < Stored(s.levels[level..])
  {
    hide Sound, Accounted, Compressed, Continues, Cost, Stored, Capacity, Taken, Compacted, Pow2, Topped;
    var levels, done, bit := Topped(s.levels, level), before + own, c.splitmix(s.rng) % 2 == 1;
    CapacityAtLeast(c.k, |s.levels| - 1 - level);
    AddTop(c.k, s.levels, stream, done, level);
    CompactIsSound(levels, stream, Cost(done), level, bit);
    SpentSnoc(done, level, 0);
    TakenAfter(c.k, s.levels, levels, level);
    CompactAccounted(c.k, levels, |stream|, done, level, bit);
    CompactedHeight(levels, level, bit);
    FewerAbove(levels, level, bit);
    ClearLevel(c.k, |start.levels|, s.levels, levels, level, bit);
    PassCompacts(c, start, s, level, own);
    assert before + (own + [level]) == done + [level];
  }

  /** A new top level, when the overflowing one is the top. */
  lemma {:induction false} AddTop(k: nat, levels: Levels, stream: seq<nat>, done: seq<nat>, level: nat)
    requires MIN_LEVEL_CAPACITY <= k && level < |levels| && !FitsAt(k, levels, level)
    requires Sound(levels, stream, Cost(done)) && Accounted(k, levels, |stream|, done)
    ensures var after := Topped(levels, level);
      && Sound(after, stream, Cost(done)) && Accounted(k, after, |stream|, done)
      && (after == levels || (level + 1 == |levels| && after == levels + [[]]))
      && after[level] == levels[level] && Stored(after[level..]) == Stored(levels[level..])
  {
    hide Sound, Accounted, Cost, Stored, Capacity;
    if level + 1 == |levels| {
      TopIsSound(levels, stream, Cost(done));
      TopOverflows(k);
      TopAccounted(k, levels, |stream|, done);
      SameAbove(levels, level);
    }
  }

  lemma {:induction false} EndPass(c: Config, start: State, s: State, stream: seq<nat>, before: seq<nat>,
                                   own: seq<nat>, level: nat)
    requires InPass(c, start, s, stream, before, own, level) && level == |s.levels|
    ensures Sound(s.levels, stream, Cost(before + own)) && Accounted(c.k, s.levels, |stream|, before + own)
    ensures Pass(c, start, 0, own, s) && (own == [] <==> Fits(c.k, start.levels, 0))
    ensures Stored(s.levels) <= 3 * c.k + 8 * |s.levels|
  {
    hide Sound, Accounted, Compressed, Continues, Cost, Stored, Fits, Pass;
    PassEnds(c, start, s, level, own);
    PassIdle(c, start, 0, own, s);
    SpaceBound(c.k, |start.levels|, s.levels);
  }

  // --- steps of a query ---

  lemma {:induction false} NoWeight(s: seq<Weighted>)
    ensures WeightOf(s[..0]) == 0 && WeightOf(s[..|s|]) == WeightOf(s)
  {
    assert s[..|s|] == s;
  }

  lemma {:induction false} NextWeight(s: seq<Weighted>, i: nat)
    requires i < |s|
    ensures WeightOf(s[..i + 1]) == WeightOf(s[..i]) + s[i].weight
  {
    assert s[..i + 1][..i] == s[..i];
  }

  lemma {:induction false} SomeWeight(levels: Levels)
    requires 0 < Stored(levels)
    ensures 0 < TotalWeight(levels)
  {
    if levels != [] && levels[0] == [] {
      assert levels == [levels[0]] + levels[1..];
      StoredTwo(levels[0], levels[1..]);
      SomeWeight(levels[1..]);
    }
  }

  lemma {:induction false} NoRanks(x: nat)
    ensures Rank([], x) == 0 && TotalWeight([]) == 0
  {
  }

  lemma {:induction false} CountEmpty(s: seq<nat>, x: nat)
    ensures CountLe(s[..0], x) == 0
  {
  }

  lemma {:induction false} CountNext(s: seq<nat>, i: nat, x: nat, w: nat)
    requires i < |s|
    ensures w * CountLe(s[..i + 1], x) == w * CountLe(s[..i], x) + if s[i] <= x then w else 0
    ensures w * (i + 1) == w * i + w
  {
    assert s[..i + 1][..i] == s[..i];
    assert w * (CountLe(s[..i], x) + 1) == w * CountLe(s[..i], x) + w;
  }

  lemma {:induction false} TotalSnoc(levels: Levels, top: seq<nat>)
    ensures TotalWeight(levels + [top]) == TotalWeight(levels) + Pow2(|levels|) * |top|
  {
    if levels == [] {
      assert (levels + [top])[1..] == [];
      assert Pow2(0) == 1;
    } else {
      assert (levels + [top])[1..] == levels[1..] + [top];
      TotalSnoc(levels[1..], top);
      assert Pow2(|levels|) == 2 * Pow2(|levels| - 1);
      assert 2 * (Pow2(|levels| - 1) * |top|) == 2 * Pow2(|levels| - 1) * |top|;
    }
  }
}
