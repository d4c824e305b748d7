/** The error budget of a KLL sketch: which compactions a pass does, what they cost, and
    how much all of them together can cost on a stream of a given length. */
module KllBudget {
  import opened Arithmetic
  import opened KllSpec

  // --- one pass ---

  /** The levels and the state of the parity generator. */
  datatype State = State(levels: Levels, rng: nat)

  /** The source of parity bits and the size of a sketch. */
  datatype Config = Config(k: nat, splitmix: nat -> nat)

  function Pushed(levels: Levels, v: nat): Levels
    requires levels != []
  {
    levels[0 := levels[0] + [v]]
  }

  function Topped(levels: Levels, level: nat): (r: Levels)
    requires level < |levels|
    ensures level + 1 < |r|
  {
    if level + 1 == |levels| then levels + [[]] else levels
  }

  predicate FitsAt(k: nat, levels: Levels, level: nat)
    requires level < |levels|
  {
    |levels[level]| <= Capacity(k, |levels| - 1 - level)
  }

  /** From `level` on, every level is within its capacity. */
  ghost predicate Fits(k: nat, levels: Levels, level: nat) {
    forall l: nat :: level <= l < |levels| ==> FitsAt(k, levels, l)
  }

  function CompactedAt(c: Config, s: State, level: nat): State
    requires level < |s.levels|
  {
    var rng := c.splitmix(s.rng);
    State(Compacted(Topped(s.levels, level), level, rng % 2 == 1), rng)
  }

  /** What one compaction leaves: the next state of the generator, an empty level, and on top of
      the next one the items promoted by the generator's low bit. */
  lemma {:induction false} CompactionIs(c: Config, s: State, level: nat)
    requires level < |s.levels|
    ensures var after := CompactedAt(c, s, level);
      var held := if level + 1 < |s.levels| then s.levels[level + 1] else [];
      && after.rng == c.splitmix(s.rng) && level + 1 < |after.levels| && after.levels[level] == []
      && after.levels[level + 1] == held + Promoted(s.levels[level], c.splitmix(s.rng) % 2 == 1)
      && forall l: nat :: l < |s.levels| && l != level && l != level + 1 ==> after.levels[l] == s.levels[l]
  {
    hide Promoted;
  }

  /** A pass from `level` on compacts the levels `done`, in this order, and ends in `after`. */
  ghost predicate Pass(c: Config, s: State, level: nat, done: seq<nat>, after: State)
    decreases |done|, |s.levels| - level
  {
    if level >= |s.levels| then done == [] && after == s
    else if FitsAt(c.k, s.levels, level) then Pass(c, s, level + 1, done, after)
    else done != [] && done[0] == level && Pass(c, CompactedAt(c, s, level), level + 1, done[1..], after)
  }

  /** A pass over levels that all fit does nothing, and only such a pass. */
  lemma {:induction false} PassIdle(c: Config, s: State, level: nat, done: seq<nat>, after: State)
    requires Pass(c, s, level, done, after)
    ensures done == [] <==> Fits(c.k, s.levels, level)
    ensures done == [] ==> after == s
    decreases |done|, |s.levels| - level
  {
    hide FitsAt;
    if level < |s.levels| && FitsAt(c.k, s.levels, level) {
      PassIdle(c, s, level + 1, done, after);
    }
  }

  ghost predicate Ascending(done: seq<nat>) {
    forall i, j :: 0 <= i < j < |done| ==> done[i] < done[j]
  }

  /** One pass compacts a level at most once, the lower ones first, starting with the
      lowest that does not fit. */
  lemma {:induction false} PassAscends(c: Config, s: State, level: nat, done: seq<nat>, after: State)
    requires Pass(c, s, level, done, after)
    ensures Ascending(done) && forall i :: 0 <= i < |done| ==> level <= done[i] && done[i] + 1 < |after.levels|
    ensures |s.levels| <= |after.levels|
    ensures done != [] ==> done[0] < |s.levels| && !FitsAt(c.k, s.levels, done[0])
    ensures done != [] ==> forall l: nat :: level <= l < done[0] ==> l < |s.levels| && FitsAt(c.k, s.levels, l)
    decreases |done|, |s.levels| - level
  {
    hide FitsAt;
    if level < |s.levels| {
      if FitsAt(c.k, s.levels, level) {
        PassAscends(c, s, level + 1, done, after);
      } else {
        PassAscends(c, CompactedAt(c, s, level), level + 1, done[1..], after);
        assert forall i :: 1 <= i < |done| ==> done[i] == done[1..][i - 1];
      }
    }
  }

  /** What is left to do decides what was done. */
  lemma {:induction false} PassUnique(c: Config, s: State, level: nat, d1: seq<nat>, a1: State, d2: seq<nat>, a2: State)
    requires Pass(c, s, level, d1, a1) && Pass(c, s, level, d2, a2)
    ensures d1 == d2 && a1 == a2
    decreases |d1|, |s.levels| - level
  {
    hide FitsAt, CompactedAt;
    if level < |s.levels| {
      if FitsAt(c.k, s.levels, level) {
        PassUnique(c, s, level + 1, d1, a1, d2, a2);
      } else {
        PassUnique(c, CompactedAt(c, s, level), level + 1, d1[1..], a1, d2[1..], a2);
        FirstAndRest(d1, d2);
      }
    }
  }

  /** After a pass that added no level every level fits, so the next insert compacts only
      if it overflows the bottom one; a pass that did may leave lower levels to the next. */
  lemma {:induction false} PassSettles(c: Config, s: State, level: nat, done: seq<nat>, after: State)
    requires Pass(c, s, level, done, after) && |after.levels| == |s.levels|
    requires forall l: nat :: l < level && l < |s.levels| ==> FitsAt(c.k, s.levels, l)
    ensures Fits(c.k, after.levels, 0)
    decreases |done|, |s.levels| - level
  {
    if level < |s.levels| {
      if FitsAt(c.k, s.levels, level) {
        PassSettles(c, s, level + 1, done, after);
      } else {
        var next := CompactedAt(c, s, level);
        PassAscends(c, next, level + 1, done[1..], after);
        assert |next.levels| == |s.levels|;
        forall l: nat | l < level + 1
          ensures FitsAt(c.k, next.levels, l)
        {
          if l < level {
            assert FitsAt(c.k, s.levels, l);
          }
        }
        PassSettles(c, next, level + 1, done[1..], after);
      }
    }
  }

  lemma {:induction false} FirstAndRest(d1: seq<nat>, d2: seq<nat>)
    requires d1 != [] && d2 != [] && d1[0] == d2[0] && d1[1..] == d2[1..]
    ensures d1 == d2
  {
    assert d1 == [d1[0]] + d1[1..] && d2 == [d2[0]] + d2[1..];
  }

  /** The rest of a pass that has done `done` so far. */
  ghost predicate Continues(c: Config, start: State, s: State, level: nat, done: seq<nat>) {
    forall rest, after :: Pass(c, s, level, rest, after) ==> Pass(c, start, 0, done + rest, after)
  }

  lemma {:induction false} PassStarts(c: Config, s: State)
    ensures Continues(c, s, s, 0, [])
  {
    hide Pass;
    forall rest, after | Pass(c, s, 0, rest, after)
      ensures Pass(c, s, 0, [] + rest, after)
    {
      assert [] + rest == rest;
    }
  }

  lemma {:induction false} PassKeeps(c: Config, start: State, s: State, level: nat, done: seq<nat>)
    requires Continues(c, start, s, level, done) && level < |s.levels| && FitsAt(c.k, s.levels, level)
    ensures Continues(c, start, s, level + 1, done)
  {
    hide FitsAt;
    forall rest, after | Pass(c, s, level + 1, rest, after)
      ensures Pass(c, start, 0, done + rest, after)
    {
      assert Pass(c, s, level, rest, after);
    }
  }

  lemma {:induction false} PassCompacts(c: Config, start: State, s: State, level: nat, done: seq<nat>)
    requires Continues(c, start, s, level, done) && level < |s.levels| && !FitsAt(c.k, s.levels, level)
    ensures Continues(c, start, CompactedAt(c, s, level), level + 1, done + [level])
  {
    hide FitsAt, CompactedAt;
    forall rest, after | Pass(c, CompactedAt(c, s, level), level + 1, rest, after)
      ensures Pass(c, start, 0, done + [level] + rest, after)
    {
      var more := [level] + rest;
      assert more[1..] == rest;
      assert Pass(c, s, level, more, after);
      assert done + more == done + [level] + rest;
    }
  }

  lemma {:induction false} PassEnds(c: Config, start: State, s: State, level: nat, done: seq<nat>)
    requires Continues(c, start, s, level, done) && |s.levels| <= level
    ensures Pass(c, start, 0, done, s)
  {
    assert Pass(c, s, level, [], s);
    assert done + [] == done;
  }

  // --- the cost of compactions ---

  /** The sum of `2^level` over all compactions done. */
  ghost function Cost(done: seq<nat>): nat {
    if done == [] then 0 else Cost(done[..|done| - 1]) + Pow2(done[|done| - 1])
  }

  /** The same sum over the compactions of levels below `below`. */
  ghost function Spent(done: seq<nat>, below: nat): nat {
    if done == [] then 0
    else Spent(done[..|done| - 1], below) + if done[|done| - 1] < below then Pow2(done[|done| - 1]) else 0
  }

  ghost predicate LevelsBelow(done: seq<nat>, below: nat) {
    forall i :: 0 <= i < |done| ==> done[i] < below
  }

  lemma {:induction false} SpentAll(done: seq<nat>, below: nat)
    requires LevelsBelow(done, below)
    ensures Spent(done, below) == Cost(done)
  {
    hide Pow2;
    if done != [] {
      SpentAll(done[..|done| - 1], below);
    }
  }

  lemma {:induction false} SpentSnoc(done: seq<nat>, level: nat, below: nat)
    ensures Spent(done + [level], below) == Spent(done, below) + if level < below then Pow2(level) else 0
    ensures Cost(done + [level]) == Cost(done) + Pow2(level)
  {
    hide Pow2;
    assert (done + [level])[..|done|] == done;
  }

  lemma {:induction false} SpentConcat(a: seq<nat>, b: seq<nat>, below: nat)
    ensures Spent(a + b, below) == Spent(a, below) + Spent(b, below) && Cost(a + b) == Cost(a) + Cost(b)
  {
    hide Pow2;
    if b == [] {
      assert a + b == a;
    } else {
      assert (a + b)[..|a + b| - 1] == a + b[..|b| - 1];
      SpentConcat(a, b[..|b| - 1], below);
    }
  }

  lemma {:induction false} SpentGrows(done: seq<nat>, low: nat, high: nat)
    requires low <= high
    ensures Spent(done, low) <= Spent(done, high)
    ensures LevelsBelow(done, low) ==> Spent(done, low) == Spent(done, high)
  {
    hide Pow2;
    if done != [] {
      SpentGrows(done[..|done| - 1], low, high);
    }
  }

  // --- the items a compaction takes ---

  function SizeAt(levels: Levels, level: nat): nat {
    if level < |levels| then |levels[level]| else 0
  }

  /** The weight kept below a level. */
  ghost function WeightBelow(levels: Levels, upTo: nat): nat {
    if upTo == 0 then 0 else WeightBelow(levels, upTo - 1) + Pow2(upTo - 1) * SizeAt(levels, upTo - 1)
  }

  /** A compaction of `level` in a sketch of at most `height` levels took at least as many items. */
  function Taken(k: nat, height: nat, level: nat): nat {
    if level < height then Capacity(k, height - 1 - level) + 1 else 1
  }

  /** The weight now below `level + 1`, with all that compactions of `level` took out of it,
      came in at the bottom or was gained by compactions of lower levels. */
  ghost predicate FlowAt(k: nat, levels: Levels, n: nat, done: seq<nat>, level: nat) {
    WeightBelow(levels, level + 1) + Taken(k, |levels|, level) * (Spent(done, level + 1) - Spent(done, level))
      <= n + Spent(done, level)
  }

  /** Levels are added only when the top one overflows. */
  ghost predicate Tall(k: nat, height: nat, n: nat, done: seq<nat>) {
    height >= 2 ==> k < n && (k + 1) * Pow2(height - 2) <= n + Spent(done, height - 2)
  }

  ghost predicate Accounted(k: nat, levels: Levels, n: nat, done: seq<nat>) {
    && levels != [] && LevelsBelow(done, |levels| - 1)
    && Tall(k, |levels|, n, done)
    && forall level: nat :: FlowAt(k, levels, n, done, level)
  }

  lemma {:induction false} WeightSame(a: Levels, b: Levels, upTo: nat)
    requires forall l: nat :: l < upTo ==> SizeAt(a, l) == SizeAt(b, l)
    ensures WeightBelow(a, upTo) == WeightBelow(b, upTo)
  {
    hide SizeAt;
    if upTo > 0 {
      WeightSame(a, b, upTo - 1);
    }
  }

  lemma {:induction false} WeightNext(levels: Levels, level: nat)
    ensures WeightBelow(levels, level + 1) == WeightBelow(levels, level) + Pow2(level) * SizeAt(levels, level)
  {
  }

  lemma {:induction false} WeightPushed(levels: Levels, v: nat, upTo: nat)
    requires levels != [] && upTo > 0
    ensures WeightBelow(Pushed(levels, v), upTo) == WeightBelow(levels, upTo) + 1
  {
    var after := Pushed(levels, v);
    if upTo == 1 {
      assert Pow2(0) == 1;
      assert WeightBelow(levels, 0) == 0 && WeightBelow(after, 0) == 0;
    } else {
      WeightPushed(levels, v, upTo - 1);
      assert SizeAt(after, upTo - 1) == SizeAt(levels, upTo - 1);
    }
  }

  lemma {:induction false} WeightNone(upTo: nat)
    ensures WeightBelow([[]], upTo) == 0
  {
    if upTo > 0 {
      WeightNone(upTo - 1);
      assert Pow2(upTo - 1) * 0 == 0;
    }
  }

  /** A compaction takes the whole level away, and brings at most `2^level` more weight to the next. */
  lemma {:induction false} WeightCompacted(levels: Levels, level: nat, bit: bool, upTo: nat)
    requires level + 1 < |levels|
    ensures var after := WeightBelow(Compacted(levels, level, bit), upTo);
      && (upTo <= level ==> after == WeightBelow(levels, upTo))
      && (upTo == level + 1 ==> after + Pow2(level) * |levels[level]| == WeightBelow(levels, upTo))
      && (upTo > level + 1 ==> after <= WeightBelow(levels, upTo) + Pow2(level))
  {
    hide Pow2, Promoted;
    var after := Compacted(levels, level, bit);
    if upTo <= level {
      WeightSame(after, levels, upTo);
    } else if upTo == level + 1 {
      WeightSame(after, levels, level);
      assert Pow2(level) * 0 == 0;
    } else if upTo == level + 2 {
      WeightCompacted(levels, level, bit, level + 1);
      PromotedSize(levels[level], bit);
      var came, gone, held := |Promoted(levels[level], bit)|, |levels[level]|, |levels[level + 1]|;
      PromotedWeight(level, came, gone, held);
      WeightNext(after, level + 1);
      WeightNext(levels, level + 1);
    } else {
      WeightCompacted(levels, level, bit, upTo - 1);
      WeightNext(after, upTo - 1);
      WeightNext(levels, upTo - 1);
      assert SizeAt(after, upTo - 1) == SizeAt(levels, upTo - 1);
    }
  }

  lemma {:induction false} PromotedWeight(level: nat, came: nat, gone: nat, held: nat)
    requires 2 * came <= gone + 1
    ensures Pow2(level + 1) * (held + came) <= Pow2(level + 1) * held + Pow2(level) * gone + Pow2(level)
  {
    var p := Pow2(level);
    assert Pow2(level + 1) == 2 * p;
    MulMonotone(2 * came, gone + 1, p);
    assert 2 * p * (held + came) == 2 * p * held + 2 * came * p;
    assert (gone + 1) * p == p * gone + p;
  }

  // --- capacities shrink as levels are added ---

  lemma {:induction false} CapacityShrinks(k: nat, low: nat, high: nat)
    requires low <= high
    ensures Capacity(k, high) <= Capacity(k, low)
  {
    GeometricShrinks(k, low, high);
  }

  lemma {:induction false} GeometricShrinks(k: nat, low: nat, high: nat)
    requires low <= high
    ensures Geometric(k, high) <= Geometric(k, low)
  {
    if low < high {
      GeometricShrinks(k, low, high - 1);
    }
  }

  lemma {:induction false} TakenShrinks(k: nat, low: nat, high: nat, level: nat)
    requires level < low <= high
    ensures Taken(k, high, level) <= Taken(k, low, level)
  {
    CapacityShrinks(k, low - 1 - level, high - 1 - level);
  }

  /** Nothing was compacted at the top level or above. */
  lemma {:induction false} FlowShrinks(k: nat, levels: Levels, n: nat, done: seq<nat>, level: nat, height: nat)
    requires levels != [] && LevelsBelow(done, |levels| - 1) && |levels| <= height
    requires FlowAt(k, levels, n, done, level)
    ensures WeightBelow(levels, level + 1) + Taken(k, height, level) * (Spent(done, level + 1) - Spent(done, level))
         <= n + Spent(done, level)
  {
    hide WeightBelow, Spent, Taken;
    SpentGrows(done, level, level + 1);
    var cost := Spent(done, level + 1) - Spent(done, level);
    if level + 1 < |levels| {
      TakenShrinks(k, |levels|, height, level);
      MulMonotone(Taken(k, height, level), Taken(k, |levels|, level), cost);
    } else {
      SpentGrows(done, |levels| - 1, level);
      SpentGrows(done, |levels| - 1, level + 1);
      assert cost == 0;
      assert Taken(k, height, level) * 0 == 0 == Taken(k, |levels|, level) * 0;
    }
  }

  // --- every step is accounted for ---

  lemma {:induction false} EmptyAccounted(k: nat)
    ensures Accounted(k, [[]], 0, [])
  {
    var levels: Levels := [[]];
    forall level: nat
      ensures FlowAt(k, levels, 0, [], level)
    {
      WeightNone(level + 1);
      assert Spent([], level) == 0 && Spent([], level + 1) == 0;
      assert Taken(k, 1, level) * 0 == 0;
    }
  }

  lemma {:induction false} PushAccounted(k: nat, levels: Levels, n: nat, done: seq<nat>, v: nat)
    requires Accounted(k, levels, n, done)
    ensures Accounted(k, Pushed(levels, v), n + 1, done)
  {
    hide WeightBelow, Spent, Taken, Pow2;
    var after, more := Pushed(levels, v), n + 1;
    forall level: nat
      ensures FlowAt(k, after, more, done, level)
    {
      assert FlowAt(k, levels, n, done, level);
      WeightPushed(levels, v, level + 1);
    }
  }

  lemma {:induction false} TopAccounted(k: nat, levels: Levels, n: nat, done: seq<nat>)
    requires Accounted(k, levels, n, done) && k < |levels[|levels| - 1]|
    ensures Accounted(k, levels + [[]], n, done)
  {
    hide WeightBelow, Spent, Taken, Pow2;
    var after: Levels := levels + [[]];
    forall level: nat
      ensures FlowAt(k, after, n, done, level)
    {
      assert FlowAt(k, levels, n, done, level);
      FlowShrinks(k, levels, n, done, level, |after|);
      WeightSame(levels, after, level + 1);
    }
    TopIsTall(k, levels, n, done);
  }

  lemma {:induction false} TopIsTall(k: nat, levels: Levels, n: nat, done: seq<nat>)
    requires Accounted(k, levels, n, done) && k < |levels[|levels| - 1]|
    ensures Tall(k, |levels| + 1, n, done)
  {
    hide WeightBelow, Spent, Taken, Pow2;
    var top := |levels| - 1;
    assert FlowAt(k, levels, n, done, top);
    SpentGrows(done, top, top + 1);
    assert Taken(k, |levels|, top) * 0 == 0;
    WeightNext(levels, top);
    MulMonotone(k + 1, |levels[top]|, Pow2(top));
    assert Pow2(top) * |levels[top]| == |levels[top]| * Pow2(top);
    if top == 0 {
      NothingBelow(done);
    }
  }

  lemma {:induction false} NothingBelow(done: seq<nat>)
    ensures Spent(done, 0) == 0 && Pow2(0) == 1
  {
    if done != [] {
      NothingBelow(done[..|done| - 1]);
    }
  }

  lemma {:induction false} CompactAccounted(k: nat, levels: Levels, n: nat, done: seq<nat>, level: nat, bit: bool)
    requires Accounted(k, levels, n, done) && level + 1 < |levels|
    requires Taken(k, |levels|, level) <= |levels[level]|
    ensures Accounted(k, Compacted(levels, level, bit), n, done + [level])
  {
    hide WeightBelow, Spent, Taken, Pow2, Promoted, Compacted;
    var after, more := Compacted(levels, level, bit), done + [level];
    CompactedHeight(levels, level, bit);
    forall l: nat
      ensures FlowAt(k, after, n, more, l)
    {
      assert FlowAt(k, levels, n, done, l);
      WeightCompacted(levels, level, bit, l + 1);
      SpentSnoc(done, level, l);
      SpentSnoc(done, level, l + 1);
      if l == level {
        SpentGrows(done, l, l + 1);
        PaidBy(Taken(k, |levels|, l), Spent(done, l + 1) - Spent(done, l), Pow2(l), |levels[l]|);
      }
    }
    SpentSnoc(done, level, |levels| - 2);
  }

  lemma {:induction false} PaidBy(taken: nat, cost: nat, p: nat, size: nat)
    requires taken <= size
    ensures taken * (cost + p) <= taken * cost + p * size
  {
    Distributes(taken, cost, p);
    MulMonotone(taken, size, p);
  }

  lemma {:induction false} CompactedHeight(levels: Levels, level: nat, bit: bool)
    requires level + 1 < |levels|
    ensures |Compacted(levels, level, bit)| == |levels|
  {
  }

  lemma {:induction false} OverlayWeight(a: Levels, b: Levels, upTo: nat)
    ensures WeightBelow(Overlay(a, b), upTo) == WeightBelow(a, upTo) + WeightBelow(b, upTo)
  {
    hide Overlay, Pow2;
    if upTo > 0 {
      OverlayWeight(a, b, upTo - 1);
      OverlaySize(a, b, upTo - 1);
      hide SizeAt;
      Distributes(Pow2(upTo - 1), SizeAt(a, upTo - 1), SizeAt(b, upTo - 1));
    }
  }

  lemma {:induction false} Distributes(p: nat, a: nat, b: nat)
    ensures p * (a + b) == p * a + p * b
  {
  }

  lemma {:induction false} OverlaySize(a: Levels, b: Levels, level: nat)
    ensures SizeAt(Overlay(a, b), level) == SizeAt(a, level) + SizeAt(b, level)
    ensures |Overlay(a, b)| == if |a| < |b| then |b| else |a|
  {
  }

  lemma {:induction false} TallMerges(k: nat, height: nat, n: nat, done: seq<nat>, m: nat, theirs: seq<nat>)
    requires Tall(k, height, n, done)
    ensures Tall(k, height, n + m, done + theirs) && Tall(k, height, m + n, theirs + done)
  {
    hide Spent, Pow2;
    if height >= 2 {
      SpentConcat(done, theirs, height - 2);
      SpentConcat(theirs, done, height - 2);
    }
  }

  lemma {:induction false} OverlayAccounted(k: nat, a: Levels, b: Levels, n: nat, m: nat, da: seq<nat>, db: seq<nat>)
    requires Accounted(k, a, n, da) && Accounted(k, b, m, db)
    ensures Accounted(k, Overlay(a, b), n + m, da + db)
  {
    hide WeightBelow, Spent, Taken, Pow2, Overlay, Tall;
    var both, done, total := Overlay(a, b), da + db, n + m;
    OverlaySize(a, b, 0);
    forall l: nat
      ensures FlowAt(k, both, total, done, l)
    {
      assert FlowAt(k, a, n, da, l) && FlowAt(k, b, m, db, l);
      FlowShrinks(k, a, n, da, l, |both|);
      FlowShrinks(k, b, m, db, l, |both|);
      OverlayWeight(a, b, l + 1);
      SpentConcat(da, db, l);
      SpentConcat(da, db, l + 1);
      var t := Taken(k, |both|, l);
      MulAdd(Spent(da, l + 1) - Spent(da, l), Spent(db, l + 1) - Spent(db, l), t);
    }
    TallMerges(k, |a|, n, da, m, db);
    TallMerges(k, |b|, m, db, n, da);
  }

  // --- how much all compactions cost ---

  /** The products over the levels below `upTo` of the items a compaction takes, and of one more. */
  ghost function TakenProduct(k: nat, height: nat, upTo: nat): nat {
    if upTo == 0 then 1 else TakenProduct(k, height, upTo - 1) * Taken(k, height, upTo - 1)
  }

  ghost function GainedProduct(k: nat, height: nat, upTo: nat): nat {
    if upTo == 0 then 1 else GainedProduct(k, height, upTo - 1) * (Taken(k, height, upTo - 1) + 1)
  }

  ghost function Power(base: nat, e: nat): nat {
    if e == 0 then 1 else Power(base, e - 1) * base
  }

  lemma {:induction false} Scales(t: nat, product: nat, gained: nat, n: nat, low: nat, high: nat)
    requires low <= high && t * (high - low) <= n + low && (n + low) * product <= n * gained
    ensures (n + high) * (product * t) <= n * (gained * (t + 1))
  {
    assert t * (n + high) == t * (n + low) + t * (high - low);
    assert t * (n + low) + (n + low) == (t + 1) * (n + low);
    MulMonotone(t * (n + high), (t + 1) * (n + low), product);
    MulMonotone((n + low) * product, n * gained, t + 1);
    assert (n + high) * (product * t) == t * (n + high) * product;
    assert (t + 1) * (n + low) * product == (n + low) * product * (t + 1);
    assert n * gained * (t + 1) == n * (gained * (t + 1));
  }

  lemma {:induction false} CostBelow(k: nat, levels: Levels, n: nat, done: seq<nat>, upTo: nat)
    requires Accounted(k, levels, n, done)
    ensures (n + Spent(done, upTo)) * TakenProduct(k, |levels|, upTo) <= n * GainedProduct(k, |levels|, upTo)
  {
    hide WeightBelow, Spent, Taken, Tall;
    if upTo == 0 {
      NothingBelow(done);
    } else {
      var l := upTo - 1;
      CostBelow(k, levels, n, done, l);
      assert FlowAt(k, levels, n, done, l);
      SpentGrows(done, l, upTo);
      Scales(Taken(k, |levels|, l), TakenProduct(k, |levels|, l), GainedProduct(k, |levels|, l), n,
             Spent(done, l), Spent(done, upTo));
    }
  }

  /** Compactions of `n` items in a sketch of `height` levels cost at most `n` times the
      product of `(c + 2) / (c + 1)`, less one, over the capacities `c` below the top. */
  ghost predicate CostWithin(k: nat, height: nat, n: nat, cost: nat)
    requires 0 < height
  {
    (n + cost) * TakenProduct(k, height, height - 1) <= n * GainedProduct(k, height, height - 1)
  }

  /** Over any tree of inserts and merges, whatever the parity bits. */
  lemma {:induction false} CostFits(k: nat, levels: Levels, n: nat, done: seq<nat>)
    requires Accounted(k, levels, n, done)
    ensures levels != [] && CostWithin(k, |levels|, n, Cost(done))
  {
    hide Accounted, TakenProduct, GainedProduct, Spent;
    HasLevels(k, levels, n, done);
    CostBelow(k, levels, n, done, |levels| - 1);
    CostIsSpent(k, levels, n, done);
  }

  lemma {:induction false} CostIsSpent(k: nat, levels: Levels, n: nat, done: seq<nat>)
    requires Accounted(k, levels, n, done)
    ensures Spent(done, |levels| - 1) == Cost(done)
  {
    SpentAll(done, |levels| - 1);
  }

  lemma {:induction false} TenthsBelow(k: nat, levels: Levels, n: nat, done: seq<nat>, upTo: nat)
    requires Accounted(k, levels, n, done) && upTo < |levels|
    ensures (n + Spent(done, upTo)) * Power(9, upTo) <= n * Power(10, upTo)
  {
    hide WeightBelow, Spent, Taken, Tall;
    if upTo == 0 {
      NothingBelow(done);
    } else {
      var l := upTo - 1;
      TenthsBelow(k, levels, n, done, l);
      assert FlowAt(k, levels, n, done, l);
      SpentGrows(done, l, upTo);
      NineTaken(k, |levels|, l);
      MulMonotone(9, Taken(k, |levels|, l), Spent(done, upTo) - Spent(done, l));
      Scales(9, Power(9, l), Power(10, l), n, Spent(done, l), Spent(done, upTo));
    }
  }

  lemma {:induction false} NineTaken(k: nat, height: nat, level: nat)
    requires level < height
    ensures 9 <= Taken(k, height, level)
  {
  }

  /** Each level below the top adds at most a ninth to what the stream and the levels below
      it can cost, whatever `k` is. */
  lemma {:induction false} CostTenths(k: nat, levels: Levels, n: nat, done: seq<nat>)
    requires Accounted(k, levels, n, done)
    ensures (n + Cost(done)) * Power(9, |levels| - 1) <= n * Power(10, |levels| - 1)
  {
    hide Accounted, Power, Spent;
    HasLevels(k, levels, n, done);
    TenthsBelow(k, levels, n, done, |levels| - 1);
    CostIsSpent(k, levels, n, done);
  }

  lemma {:induction false} HasLevels(k: nat, levels: Levels, n: nat, done: seq<nat>)
    requires Accounted(k, levels, n, done)
    ensures levels != []
  {
  }

  /** The number of levels is logarithmic in the stream and what it cost. */
  lemma {:induction false} HeightFits(k: nat, levels: Levels, n: nat, done: seq<nat>)
    requires Accounted(k, levels, n, done) && 2 <= |levels|
    ensures (k + 1) * Pow2(|levels| - 2) <= n + Cost(done)
  {
    hide Pow2, Spent;
    CostIsSpent(k, levels, n, done);
    SpentGrows(done, |levels| - 2, |levels| - 1);
  }

  /** Up to `k` items nothing is compacted, so every rank is exact. */
  lemma {:induction false} ExactWhileSmall(k: nat, levels: Levels, n: nat, done: seq<nat>)
    requires Accounted(k, levels, n, done) && n <= k
    ensures |levels| == 1 && done == [] && Cost(done) == 0
  {
    NoneBelow(done);
  }

  lemma {:induction false} NoneBelow(done: seq<nat>)
    ensures LevelsBelow(done, 0) ==> done == []
  {
    if done != [] {
      assert !(done[0] < 0);
    }
  }
}
