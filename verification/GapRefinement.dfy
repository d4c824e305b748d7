/** The runtime's gap fast-forward against the one-slide-at-a-time loop. */
module GapRefinement {
  import opened Arithmetic
  import opened WindowRing

  lemma {:induction false} SlideShape(c: Config, ring: seq<Bucket>)
    requires c.Valid() && ring != [] && Contiguous(c, ring)
    ensures var r := Slide(c, ring).ring;
      && Contiguous(c, r) && |r| == Min(|ring| + 1, c.buckets)
      && Back(r) == Back(ring) + c.slide && r[|r| - 1].events == multiset{}
      && (|ring| < c.buckets ==> r == ring + [Bucket(Back(r), multiset{})])
      && (|ring| == c.buckets ==> r == ring[1..] + [Bucket(Back(r), multiset{})])
  {
    AlignedStep(Back(ring), c.slide);
  }

  /** `r` is a ring after `k` slides of `ring`: longer by `k` up to the window's length,
      `k` slides later, and empty where it is new. */
  ghost predicate SlidBy(c: Config, ring: seq<Bucket>, k: nat, r: seq<Bucket>)
    requires c.Valid() && ring != []
  {
    && r != [] && Contiguous(c, r) && |r| == Min(|ring| + k, c.buckets)
    && Back(r) == Back(ring) + k * c.slide
    && forall i :: 0 <= i < |r| && |r| - k <= i ==> r[i].events == multiset{}
  }

  lemma {:induction false} SlideOnceMore(c: Config, ring: seq<Bucket>, k: nat, r: seq<Bucket>)
    requires c.Valid() && ring != [] && SlidBy(c, ring, k, r)
    ensures SlidBy(c, ring, k + 1, Slide(c, r).ring)
  {
    SlideShape(c, r);
    MulSucc(k, c.slide);
    hide Slide, Contiguous;
  }

  lemma {:induction false} SlideTimesShape(c: Config, ring: seq<Bucket>, k: nat)
    requires c.Valid() && ring != [] && Contiguous(c, ring)
    ensures SlidBy(c, ring, k, SlideTimes(c, ring, k).ring)
  {
    if k > 0 {
      hide SlidBy, Slide;
      SlideTimesShape(c, ring, k - 1);
      SlideOnceMore(c, ring, k - 1, SlideTimes(c, ring, k - 1).ring);
    }
  }

  lemma {:induction false} SlideTimesSplit(c: Config, ring: seq<Bucket>, j: nat, k: nat)
    requires c.Valid() && ring != []
    ensures var first := SlideTimes(c, ring, j);
      var rest := SlideTimes(c, first.ring, k);
      SlideTimes(c, ring, j + k) == Advanced(rest.ring, first.windows + rest.windows)
  {
    hide Slide, Union;
    var first := SlideTimes(c, ring, j);
    if k == 0 {
      assert first.windows + [] == first.windows;
    } else {
      SlideTimesSplit(c, ring, j, k - 1);
      var rest := SlideTimes(c, first.ring, k - 1);
      var last := Slide(c, rest.ring);
      ConcatAssociates(first.windows, rest.windows, last.windows);
      assert SlideTimes(c, first.ring, k) == Advanced(last.ring, rest.windows + last.windows);
      SlideTimesStep(c, ring, j + k);
    }
  }

  lemma {:induction false} SlideTimesStep(c: Config, ring: seq<Bucket>, k: nat)
    requires c.Valid() && ring != [] && 0 < k
    ensures var before := SlideTimes(c, ring, k - 1);
      var last := Slide(c, before.ring);
      SlideTimes(c, ring, k) == Advanced(last.ring, before.windows + last.windows)
  {
  }

  lemma {:induction false} ConcatAssociates<T>(a: seq<T>, b: seq<T>, c: seq<T>)
    ensures (a + b) + c == a + (b + c)
  {
  }

  lemma {:induction false} EmptyUnion(ring: seq<Bucket>)
    requires forall i :: 0 <= i < |ring| ==> ring[i].events == multiset{}
    ensures Union(ring) == multiset{}
  {
    if ring != [] {
      EmptyUnion(ring[1..]);
    }
  }

  lemma {:induction false} EmptySlide(c: Config, ring: seq<Bucket>)
    requires c.Valid() && ring != [] && Contiguous(c, ring)
    requires forall i :: 0 <= i < |ring| ==> ring[i].events == multiset{}
    ensures var r := Slide(c, ring);
      NonEmpty(r.windows) == [] && forall i :: 0 <= i < |r.ring| ==> r.ring[i].events == multiset{}
  {
    SlideShape(c, ring);
    EmptyUnion(ring);
    assert Slide(c, ring).windows[..0] == [];
  }

  /** Sliding a ring of empty buckets closes only windows without events. */
  lemma {:induction false} EmptyRingSlides(c: Config, ring: seq<Bucket>, k: nat)
    requires c.Valid() && ring != [] && Contiguous(c, ring)
    requires forall i :: 0 <= i < |ring| ==> ring[i].events == multiset{}
    ensures var r := SlideTimes(c, ring, k);
      && NonEmpty(r.windows) == []
      && forall i :: 0 <= i < |r.ring| ==> r.ring[i].events == multiset{}
  {
    hide Slide, Contiguous, NonEmpty;
    if k > 0 {
      EmptyRingSlides(c, ring, k - 1);
      SlideTimesShape(c, ring, k - 1);
      var before := SlideTimes(c, ring, k - 1);
      EmptySlide(c, before.ring);
      NonEmptyConcat(before.windows, Slide(c, before.ring).windows);
    } else {
      NoWindows();
    }
  }

  lemma {:induction false} NoWindows()
    ensures NonEmpty([]) == []
  {
  }

  lemma {:induction false} EmptyBucketsShape(c: Config, start: nat, count: nat)
    requires c.Valid() && Aligned(c, start) && 0 < count <= c.buckets
    ensures var r := EmptyBuckets(c, start, count);
      && Contiguous(c, r) && r[0].start == start
      && forall i :: 0 <= i < |r| ==> r[i].events == multiset{}
  {
    if count == 1 {
      assert EmptyBuckets(c, start, 0) == [];
    } else {
      EmptyBucketsShape(c, start, count - 1);
      var before := EmptyBuckets(c, start, count - 1);
      StartAt(c, before, count - 2);
      assert (count - 1) * c.slide == (count - 2) * c.slide + c.slide;
      AlignedStep(Back(before), c.slide);
    }
  }

  lemma {:induction false} TrailingRingShape(c: Config, target: nat)
    requires c.Valid() && Aligned(c, target)
    ensures var r := TrailingRing(c, target);
      && Contiguous(c, r) && |r| == Min(c.buckets - 1, target / c.slide) + 1
      && Back(r) == target
      && forall i :: 0 <= i < |r| ==> r[i].events == multiset{}
  {
    var reach := Min(c.buckets - 1, target / c.slide);
    MultipleFits(c.slide, reach, target);
    DivMod(target, c.slide);
    var first := target - c.slide * reach;
    assert first == (target / c.slide - reach) * c.slide by {
      assert (target / c.slide - reach) * c.slide == target / c.slide * c.slide - reach * c.slide;
    }
    MultipleMod(target / c.slide - reach, c.slide);
    EmptyBucketsShape(c, first, reach + 1);
    StartAt(c, EmptyBuckets(c, first, reach + 1), reach);
  }

  /** Contiguous rings of empty buckets are determined by length and newest start. */
  lemma {:induction false} SameEmptyRing(c: Config, a: seq<Bucket>, b: seq<Bucket>)
    requires c.Valid() && Contiguous(c, a) && Contiguous(c, b)
    requires a != [] && |a| == |b| && Back(a) == Back(b)
    requires forall i :: 0 <= i < |a| ==> a[i].events == multiset{}
    requires forall i :: 0 <= i < |b| ==> b[i].events == multiset{}
    ensures a == b
  {
    StartAt(c, a, |a| - 1);
    StartAt(c, b, |b| - 1);
    forall i | 0 <= i < |a|
      ensures a[i] == b[i]
    {
      StartAt(c, a, i);
      StartAt(c, b, i);
    }
  }

  lemma {:induction false} SlidesReachTarget(c: Config, ring: seq<Bucket>, target: nat)
    requires c.Valid() && ring != [] && Contiguous(c, ring)
    requires Aligned(c, target) && Back(ring) <= target
    ensures Back(ring) + SlidesTo(c, ring, target) * c.slide == target
  {
    AlignedDistance(Back(ring), target, c.slide);
  }

  /** The fast-forward leaves the same ring as the slow loop and emits a prefix
      of its windows that lacks only windows without events; it closes as many
      windows as the preflight counted, at most one per bucket of the window. */
  lemma {:induction false} FastRefinesSlow(c: Config, ring: seq<Bucket>, target: nat)
    requires c.Valid() && Contiguous(c, ring) && Aligned(c, target)
    ensures var fast := FastAdvance(c, ring, target);
      var slow := SlowAdvance(c, ring, target);
      && fast.ring == slow.ring
      && fast.windows <= slow.windows
      && NonEmpty(fast.windows) == NonEmpty(slow.windows)
      && |fast.windows| == WindowsClosed(c, ring, target) <= c.buckets
  {
    var k := SlidesTo(c, ring, target);
    if k > c.buckets {
      var n := c.buckets;
      SlidesReachTarget(c, ring, target);
      GapIsLong(c, ring, target);
      TrailingRingShape(c, target);
      LongSlide(c, ring, k);
      SameEmptyRing(c, TrailingRing(c, target), SlideTimes(c, ring, k).ring);
    }
  }

  /** After a full ring of slides every old bucket has expired. */
  lemma {:induction false} LongSlide(c: Config, ring: seq<Bucket>, k: nat)
    requires c.Valid() && ring != [] && Contiguous(c, ring) && c.buckets <= k
    ensures var slow := SlideTimes(c, ring, k);
      var decayed := SlideTimes(c, ring, c.buckets);
      && decayed.windows <= slow.windows
      && NonEmpty(decayed.windows) == NonEmpty(slow.windows)
      && Contiguous(c, slow.ring) && |slow.ring| == c.buckets
      && Back(slow.ring) == Back(ring) + k * c.slide
      && forall i :: 0 <= i < |slow.ring| ==> slow.ring[i].events == multiset{}
  {
    hide Slide, SlideTimes, Union;
    var n := c.buckets;
    SlideTimesShape(c, ring, n);
    SlideTimesShape(c, ring, k);
    var decayed := SlideTimes(c, ring, n);
    SlideTimesSplit(c, ring, n, k - n);
    EmptyRingSlides(c, decayed.ring, k - n);
    NonEmptyConcat(decayed.windows, SlideTimes(c, decayed.ring, k - n).windows);
  }

  lemma {:induction false} GapIsLong(c: Config, ring: seq<Bucket>, target: nat)
    requires c.Valid() && ring != [] && SlidesTo(c, ring, target) > c.buckets
    ensures target / c.slide > c.buckets - 1
  {
    DivMod(target - Back(ring), c.slide);
    DivMod(target, c.slide);
    if target / c.slide < SlidesTo(c, ring, target) {
      MulStrict(target / c.slide, SlidesTo(c, ring, target), c.slide);
      assert false;
    }
  }

  /** Slow advances compose: stopping on the way changes nothing. */
  lemma {:induction false} AdvanceComposes(c: Config, ring: seq<Bucket>, mid: nat, target: nat)
    requires c.Valid() && ring != [] && Contiguous(c, ring)
    requires Aligned(c, mid) && Aligned(c, target) && mid <= target
    ensures var a := SlowAdvance(c, ring, mid);
      var b := SlowAdvance(c, a.ring, target);
      SlowAdvance(c, ring, target) == Advanced(b.ring, a.windows + b.windows)
  {
    if Back(ring) < mid {
      var j, k := SlidesTo(c, ring, mid), SlidesTo(c, ring, target);
      SlidesReachTarget(c, ring, mid);
      SlidesReachTarget(c, ring, target);
      SlideTimesShape(c, ring, j);
      var a := SlowAdvance(c, ring, mid);
      SlidesReachTarget(c, a.ring, target);
      if k < j {
        MulStrict(k, j, c.slide);
        assert false;
      }
      var d := SlidesTo(c, a.ring, target);
      MulAdd(j, d, c.slide);
      if j + d < k { MulStrict(j + d, k, c.slide); assert false; }
      if k < j + d { MulStrict(k, j + d, c.slide); assert false; }
      SlideTimesSplit(c, ring, j, d);
    }
  }
}
