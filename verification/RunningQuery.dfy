/** One running query as the runtime holds it: an object whose ring, pending
    windows and late counter the calls update in place. */
module RunningQueries {
  import opened Arithmetic
  import opened WindowRing
  import opened GapRefinement
  import opened Options
  import opened QuerySpec

  lemma {:induction false} UnionSnoc(ring: seq<Bucket>, b: Bucket)
    ensures Union(ring + [b]) == Union(ring) + b.events
  {
    if ring == [] {
      assert (ring + [b])[1..] == [];
    } else {
      assert (ring + [b])[1..] == ring[1..] + [b];
      UnionSnoc(ring[1..], b);
    }
  }

  lemma {:induction false} FastWindowCount(c: Config, ring: seq<Bucket>, target: nat)
    requires c.Valid() && Contiguous(c, ring) && Aligned(c, target)
    ensures |FastAdvance(c, ring, target).windows| == WindowsClosed(c, ring, target)
    ensures Contiguous(c, FastAdvance(c, ring, target).ring)
  {
    FastRefinesSlow(c, ring, target);
    if ring == [] {
    } else {
      SlideTimesShape(c, ring, SlidesTo(c, ring, target));
    }
  }

  class RunningQuery {
    const c: Plan
    var buckets: seq<Bucket>
    var emitted: seq<Window>
    var lateEvents: nat

    ghost predicate Valid()
      reads this
    {
      Contiguous(c, buckets) && |emitted| <= c.capacity
    }

    function Value(): Query
      reads this
    {
      Query(buckets, emitted, lateEvents)
    }

    constructor (c: Plan)
      ensures Valid() && this.c == c && Value() == Query([], [], 0)
    {
      this.c := c;
      buckets, emitted, lateEvents := [], [], 0;
    }

    method RebuildTrailingRing(target: nat)
      requires Aligned(c, target)
      modifies this`buckets
      ensures buckets == TrailingRing(c, target)
    {
      buckets := [];
      var reach := Min(c.buckets - 1, target / c.slide);
      MultipleFits(c.slide, reach, target);
      var first := target - c.slide * reach;
      var start := first;
      while true
        invariant |buckets| <= reach && start == first + |buckets| * c.slide
        invariant buckets == EmptyBuckets(c, first, |buckets|)
        decreases reach - |buckets|
      {
        buckets := buckets + [Bucket(start, multiset{})];
        TrailingEnd(c.slide, reach, |buckets|);
        if start == target {
          break;
        }
        start := start + c.slide;
      }
    }

    function WindowsClosedByAdvance(target: nat): (r: nat)
      reads this
      ensures r == WindowsClosed(c, buckets, target)
    {
      if buckets == [] then 0
      else
        var back := buckets[|buckets| - 1].start;
        if target <= back then 0
        else
          var slides := (target - back) / c.slide;
          if slides > c.buckets then c.buckets else slides
    }

    predicate CanEmit(additional: nat)
      reads this
    {
      |emitted| + additional <= c.capacity
    }

    /** Everything the open buckets hold. */
    method MergeBuckets() returns (merged: multiset<FlowEvent>)
      requires buckets != []
      ensures merged == Union(buckets)
    {
      merged := buckets[0].events;
      assert buckets[..1] == [] + [buckets[0]];
      UnionSnoc([], buckets[0]);
      for i := 1 to |buckets|
        invariant merged == Union(buckets[..i])
      {
        assert buckets[..i + 1] == buckets[..i] + [buckets[i]];
        UnionSnoc(buckets[..i], buckets[i]);
        merged := merged + buckets[i].events;
      }
      assert buckets[..|buckets|] == buckets;
    }

    /** The open window, once there is one; nothing changes. */
    method CurrentWindow() returns (w: Option<Window>)
      ensures w == if buckets == [] then None else Some(TrailingWindow(c, buckets))
    {
      if buckets == [] {
        return None;
      }
      var merged := MergeBuckets();
      w := Some(Window(buckets[0].start, buckets[|buckets| - 1].start + c.slide, merged));
    }

    /** Merge all open buckets into one completed window. */
    method FlushWindow(windowEnd: nat) returns (ok: bool)
      requires buckets != []
      modifies this`emitted
      ensures ok <==> |old(emitted)| + 1 <= c.capacity
      ensures ok ==> emitted == old(emitted) + [Window(buckets[0].start, windowEnd, Union(buckets))]
      ensures !ok ==> emitted == old(emitted)
    {
      if !CanEmit(1) {
        return false;
      }
      var merged := MergeBuckets();
      emitted := emitted + [Window(buckets[0].start, windowEnd, merged)];
      return true;
    }

    /** Flush at the next boundary, open the next bucket, expire the oldest. */
    method SlideOnce() returns (ok: bool)
      requires Contiguous(c, buckets) && buckets != []
      modifies this`emitted, this`buckets
      ensures ok <==> |old(emitted)| + 1 <= c.capacity
      ensures ok ==> buckets == Slide(c, old(buckets)).ring && emitted == old(emitted) + Slide(c, old(buckets)).windows
      ensures !ok ==> Value() == old(Value())
    {
      var next := buckets[|buckets| - 1].start + c.slide;
      ok := FlushWindow(next);
      if ok {
        buckets := buckets + [Bucket(next, multiset{})];
        while |buckets| > c.buckets
          modifies this`buckets
          invariant |old(buckets)| < c.buckets ==> buckets == old(buckets) + [Bucket(next, multiset{})]
          invariant |old(buckets)| == c.buckets ==>
            buckets == old(buckets) + [Bucket(next, multiset{})] || buckets == old(buckets)[1..] + [Bucket(next, multiset{})]
        {
          buckets := buckets[1..];
        }
      }
    }

    /** Advance to `target`, or refuse without touching anything when the windows
        that would close do not fit. */
    method AdvanceToBucket(target: nat) returns (ok: bool)
      requires Valid() && Aligned(c, target)
      modifies this
      ensures Valid()
      ensures ok <==> CanAdvance(c, old(Value()), target)
      ensures Value() == if ok then Advance(c, old(Value()), target) else old(Value())
    {
      hide Slide, SlideTimes, TrailingRing, Aligned;
      FastWindowCount(c, buckets, target);
      ok := CanEmit(WindowsClosedByAdvance(target));
      if !ok {
        return;
      }
      if buckets == [] {
        buckets := [Bucket(target, multiset{})];
        assert emitted + [] == emitted;
        return;
      }
      var back := buckets[|buckets| - 1].start;
      if target > back && (target - back) / c.slide > c.buckets {
        DecayWholeRing(target);
        RebuildTrailingRing(target);
      } else {
        SlideUpTo(target);
      }
    }

    /** The gap branch: close the decaying trailing windows, one per bucket. */
    method DecayWholeRing(ghost target: nat)
      requires Valid() && buckets != [] && |emitted| + c.buckets <= c.capacity
      modifies this`emitted, this`buckets
      ensures emitted == old(emitted) + SlideTimes(c, old(buckets), c.buckets).windows
      ensures lateEvents == old(lateEvents)
    {
      ghost var start, pending := buckets, emitted;
      assert pending + [] == pending;
      assert SlideTimes(c, start, 0) == Advanced(start, []);
      hide Slide, SlideTimes, Aligned;
      for k := 0 to c.buckets
        modifies this`emitted, this`buckets
        invariant buckets != [] && Contiguous(c, buckets)
        invariant buckets == SlideTimes(c, start, k).ring
        invariant emitted == pending + SlideTimes(c, start, k).windows
      {
        NextSlide(c, start, k);
        ConcatAssociates(pending, SlideTimes(c, start, k).windows, Slide(c, buckets).windows);
        var slid := SlideOnce();
      }
    }

    /** The ordinary branch: slide until the newest bucket reaches the target. */
    method SlideUpTo(target: nat)
      requires Valid() && buckets != [] && Aligned(c, target)
      requires |emitted| + SlidesTo(c, buckets, target) <= c.capacity
      modifies this`emitted, this`buckets
      ensures buckets == SlowAdvance(c, old(buckets), target).ring
      ensures emitted == old(emitted) + SlowAdvance(c, old(buckets), target).windows
      ensures lateEvents == old(lateEvents)
    {
      ghost var start, pending := buckets, emitted;
      ghost var k, closed := 0, [];
      assert pending + [] == pending;
      StartSliding(c, start, target);
      while buckets[|buckets| - 1].start < target
        modifies this`emitted, this`buckets
        invariant buckets != [] && Contiguous(c, buckets)
        invariant Slid(c, start, k, Advanced(buckets, closed), target) && emitted == pending + closed
        invariant |closed| == k
        decreases SlidesTo(c, start, target) - k
      {
        hide Slid;
        KeepSliding(c, start, k, Advanced(buckets, closed), target);
        closed := closed + Slide(c, buckets).windows;
        var slid := SlideOnce();
        k := k + 1;
      }
      StopSliding(c, start, k, Advanced(buckets, closed), target);
    }

    /** Handle one event; refuse, untouched, when its advance does not fit. */
    method Process(e: FlowEvent) returns (ok: bool)
      requires Valid()
      modifies this
      ensures Valid()
      ensures ok <==> CanProcess(c, old(Value()), e)
      ensures !c.filter(e) ==> ok && Value() == old(Value())
      ensures Value() == if ok then QuerySpec.Process(c, old(Value()), e) else old(Value())
    {
      if !c.filter(e) {
        return true;
      }
      var bucketStart := BucketStart(c, e.ts);
      var index: nat;
      if buckets != [] && buckets[|buckets| - 1].start == bucketStart {
        index := |buckets| - 1;
        AlreadyThere(c, Value(), bucketStart);
      } else {
        ok := AdvanceToBucket(bucketStart);
        if !ok {
          return;
        }
        index := Position(buckets, bucketStart);
        if index == |buckets| {
          lateEvents := lateEvents + 1;
          return;
        }
      }
      ghost var before := Value();
      buckets := buckets[index := buckets[index].(events := buckets[index].events + multiset{e})];
      PlacedIn(c, before, e, bucketStart, index);
      return true;
    }

    /** Close the trailing partial window at the end of the stream. */
    method Finish() returns (ok: bool)
      requires Valid()
      modifies this
      ensures Valid()
      ensures ok <==> CanFinish(c, old(Value()))
      ensures ok <==> old(buckets) == [] || |old(emitted)| < c.capacity
      ensures Value() == if ok then QuerySpec.Finish(c, old(Value())) else old(Value())
    {
      if buckets == [] {
        return true;
      }
      ok := FlushWindow(buckets[|buckets| - 1].start + c.slide);
    }

    /** Drain the completed windows. */
    method TakeWindows() returns (windows: seq<Window>)
      requires Valid()
      modifies this`emitted
      ensures Valid() && windows == old(emitted) && Value() == Drain(old(Value()))
    {
      windows := emitted;
      emitted := [];
    }
  }

  lemma {:induction false} NextSlide(c: Config, ring: seq<Bucket>, k: nat)
    requires c.Valid() && ring != [] && Contiguous(c, ring)
    ensures var a := SlideTimes(c, ring, k);
      var b := Slide(c, a.ring);
      SlideTimes(c, ring, k + 1) == Advanced(b.ring, a.windows + b.windows) && Contiguous(c, b.ring)
      && Back(b.ring) == Back(a.ring) + c.slide && |b.windows| == 1
  {
    SlideTimesShape(c, ring, k);
    SlideShape(c, SlideTimes(c, ring, k).ring);
  }

  /** `k` of the slides towards the target have been made. */
  ghost predicate Slid(c: Config, start: seq<Bucket>, k: nat, now: Advanced, target: nat)
    requires c.Valid() && start != []
  {
    now == SlideTimes(c, start, k) && k <= SlidesTo(c, start, target)
  }

  lemma {:induction false} StartSliding(c: Config, start: seq<Bucket>, target: nat)
    requires c.Valid() && start != []
    ensures Slid(c, start, 0, Advanced(start, []), target)
  {
  }

  lemma {:induction false} KeepSliding(c: Config, start: seq<Bucket>, k: nat, now: Advanced, target: nat)
    requires c.Valid() && start != [] && Contiguous(c, start) && Aligned(c, target)
    requires Slid(c, start, k, now, target) && now.ring != [] && Back(now.ring) < target
    ensures k < SlidesTo(c, start, target) && |Slide(c, now.ring).windows| == 1
    ensures Contiguous(c, Slide(c, now.ring).ring)
    ensures Slid(c, start, k + 1, Advanced(Slide(c, now.ring).ring, now.windows + Slide(c, now.ring).windows), target)
  {
    hide Slide;
    NextSlide(c, start, k);
    SlideTimesShape(c, start, k);
    MulMonotone(0, k, c.slide);
    SlidesReachTarget(c, start, target);
  }

  lemma {:induction false} StopSliding(c: Config, start: seq<Bucket>, k: nat, now: Advanced, target: nat)
    requires c.Valid() && start != [] && Contiguous(c, start) && Aligned(c, target)
    requires Slid(c, start, k, now, target) && now.ring != [] && target <= Back(now.ring)
    ensures now == SlowAdvance(c, start, target)
  {
    SlideTimesShape(c, start, k);
    if Back(start) < target && k < SlidesTo(c, start, target) {
      SlidesReachTarget(c, start, target);
      MulStrict(k, SlidesTo(c, start, target), c.slide);
      assert false;
    }
  }

  /** An event in the newest bucket advances nothing. */
  lemma {:induction false} AlreadyThere(c: Config, q: Query, start: nat)
    requires c.Valid() && q.ring != [] && Back(q.ring) == start && |q.emitted| <= c.capacity
    ensures CanAdvance(c, q, start) && Advance(c, q, start) == q
  {
    assert q.emitted + [] == q.emitted;
  }

  lemma {:induction false} PlacedIn(c: Config, q: Query, e: FlowEvent, start: nat, i: nat)
    requires c.Valid() && Contiguous(c, q.ring) && i < |q.ring| && q.ring[i].start == start
    ensures Place(q, start, e) == q.(ring := Put(q.ring, i, e))
    ensures Contiguous(c, Put(q.ring, i, e))
  {
    OneStart(c, q.ring, i, Position(q.ring, start));
  }

  lemma {:induction false} OneStart(c: Config, ring: seq<Bucket>, i: nat, j: nat)
    requires c.Valid() && Contiguous(c, ring) && i < |ring| && j <= i
    requires j < |ring| ==> ring[j].start == ring[i].start
    ensures i == j
  {
    StartAt(c, ring, i);
    StartAt(c, ring, j);
    if j < i {
      MulStrict(j, i, c.slide);
    }
  }
}
