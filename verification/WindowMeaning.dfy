/** What the windows of a query contain, over every run of the runtime's calls. */
module WindowMeaning {
  import opened Arithmetic
  import opened WindowRing
  import opened GapRefinement
  import opened QuerySpec

  /** A matching event, its bucket, and the newest open bucket once it was handled. */
  datatype Arrival = Arrival(event: FlowEvent, bucket: nat, back: nat)

  function Gather(log: seq<Arrival>, keep: Arrival -> bool): multiset<FlowEvent> {
    if log == [] then multiset{}
    else
      var a := log[|log| - 1];
      Gather(log[..|log| - 1], keep) + (if keep(a) then multiset{a.event} else multiset{})
  }

  lemma {:induction false} GatherSame(log: seq<Arrival>, f: Arrival -> bool, g: Arrival -> bool)
    requires forall i :: 0 <= i < |log| ==> f(log[i]) == g(log[i])
    ensures Gather(log, f) == Gather(log, g)
  {
    if log != [] {
      GatherSame(log[..|log| - 1], f, g);
    }
  }

  lemma {:induction false} GatherSplit(log: seq<Arrival>, whole: Arrival -> bool, f: Arrival -> bool, g: Arrival -> bool)
    requires forall i :: 0 <= i < |log| ==>
      whole(log[i]) == (f(log[i]) || g(log[i])) && !(f(log[i]) && g(log[i]))
    ensures Gather(log, whole) == Gather(log, f) + Gather(log, g)
  {
    if log != [] {
      GatherSplit(log[..|log| - 1], whole, f, g);
    }
  }

  lemma {:induction false} GatherNone(log: seq<Arrival>, f: Arrival -> bool)
    requires forall i :: 0 <= i < |log| ==> !f(log[i])
    ensures Gather(log, f) == multiset{}
  {
    if log != [] {
      GatherNone(log[..|log| - 1], f);
    }
  }

  lemma {:induction false} GatherSnoc(log: seq<Arrival>, a: Arrival, f: Arrival -> bool)
    ensures Gather(log + [a], f) == Gather(log, f) + (if f(a) then multiset{a.event} else multiset{})
  {
    assert (log + [a])[..|log|] == log;
  }

  function Span(c: Config): nat {
    c.buckets * c.slide
  }

  function WindowStart(c: Config, first: nat, end: nat): nat {
    Max(first, end - Span(c))
  }

  function Inside(lo: nat, end: nat): Arrival -> bool {
    (a: Arrival) => lo <= a.bucket && a.back < end
  }

  function At(start: nat): Arrival -> bool {
    (a: Arrival) => a.bucket == start
  }

  function From(start: nat): Arrival -> bool {
    (a: Arrival) => start <= a.bucket
  }

  /** The events a window [lo, end) covers: handled before it closed, bucket inside. */
  function Covered(log: seq<Arrival>, lo: nat, end: nat): multiset<FlowEvent> {
    Gather(log, Inside(lo, end))
  }

  function InBucket(log: seq<Arrival>, start: nat): multiset<FlowEvent> {
    Gather(log, At(start))
  }

  ghost predicate Logged(c: Config, first: nat, back: nat, log: seq<Arrival>)
    requires c.Valid()
  {
    && Aligned(c, first) && first <= back
    && forall i :: 0 <= i < |log| ==>
      && log[i].bucket == BucketStart(c, log[i].event.ts)
      && log[i].bucket <= log[i].back <= back && first <= log[i].back && Aligned(c, log[i].back)
      && c.filter(log[i].event)
  }

  /** The ring of a query that opened at `first` and has handled `log`. */
  ghost predicate Faithful(c: Config, ring: seq<Bucket>, first: nat, log: seq<Arrival>)
    requires c.Valid()
  {
    && ring != [] && Contiguous(c, ring)
    && Logged(c, first, Back(ring), log)
    && ring[0].start == WindowStart(c, first, Back(ring) + c.slide)
    && (|ring| < c.buckets ==> ring[0].start == first)
    && forall i :: 0 <= i < |ring| ==> ring[i].events == InBucket(log, ring[i].start)
  }

  /** Merging the open buckets yields everything logged from the oldest one on. */
  lemma {:induction false} UnionIsRange(c: Config, ring: seq<Bucket>, log: seq<Arrival>)
    requires c.Valid() && ring != [] && Contiguous(c, ring)
    requires forall i :: 0 <= i < |ring| ==> ring[i].events == InBucket(log, ring[i].start)
    requires forall i :: 0 <= i < |log| ==> Aligned(c, log[i].bucket) && log[i].bucket <= Back(ring)
    ensures Union(ring) == Gather(log, From(ring[0].start))
  {
    var front := ring[0].start;
    if |ring| == 1 {
      assert Union(ring[1..]) == multiset{};
      GatherSame(log, At(front), From(front));
    } else {
      UnionIsRange(c, ring[1..], log);
      var second := ring[1].start;
      forall i | 0 <= i < |log| && front < log[i].bucket
        ensures second <= log[i].bucket
      {
        AlignedGap(front, log[i].bucket, c.slide);
      }
      GatherSplit(log, From(front), At(front), From(second));
    }
  }

  /** The window a flush would emit covers exactly the logged events in its range. */
  lemma {:induction false} FlushMeaning(c: Config, ring: seq<Bucket>, first: nat, log: seq<Arrival>)
    requires c.Valid() && Faithful(c, ring, first, log)
    ensures var w := TrailingWindow(c, ring);
      && w.start == WindowStart(c, first, w.end)
      && w.events == Covered(log, w.start, w.end)
  {
    UnionIsRange(c, ring, log);
    var front, end := ring[0].start, Back(ring) + c.slide;
    GatherSame(log, From(front), Inside(front, end));
  }

  lemma {:induction false} SlideKeepsFaithful(c: Config, ring: seq<Bucket>, first: nat, log: seq<Arrival>)
    requires c.Valid() && Faithful(c, ring, first, log)
    ensures Faithful(c, Slide(c, ring).ring, first, log)
    ensures Slide(c, ring).windows == [TrailingWindow(c, ring)]
    ensures Back(Slide(c, ring).ring) == Back(ring) + c.slide && first <= Back(ring)
  {
    hide Logged, InBucket, WindowStart, Contiguous, Union, Aligned;
    var r := Slide(c, ring).ring;
    SlideShape(c, ring);
    LoggedLater(c, first, Back(ring), Back(r), log);
    SlideContents(c, ring, first, log);
    SlideFront(c, ring, first);
  }

  lemma {:induction false} LoggedLater(c: Config, first: nat, back: nat, later: nat, log: seq<Arrival>)
    requires c.Valid() && Logged(c, first, back, log) && back <= later
    ensures Logged(c, first, later, log) && first <= back
  {
  }

  lemma {:induction false} SlideContents(c: Config, ring: seq<Bucket>, first: nat, log: seq<Arrival>)
    requires c.Valid() && ring != [] && Contiguous(c, ring) && Logged(c, first, Back(ring), log)
    requires forall i :: 0 <= i < |ring| ==> ring[i].events == InBucket(log, ring[i].start)
    ensures var r := Slide(c, ring).ring;
      forall i :: 0 <= i < |r| ==> r[i].events == InBucket(log, r[i].start)
  {
    SlideShape(c, ring);
    GatherNone(log, At(Back(Slide(c, ring).ring)));
  }

  lemma {:induction false} SlideFront(c: Config, ring: seq<Bucket>, first: nat)
    requires c.Valid() && ring != [] && Contiguous(c, ring)
    requires ring[0].start == WindowStart(c, first, Back(ring) + c.slide)
    requires |ring| < c.buckets ==> ring[0].start == first
    ensures var r := Slide(c, ring).ring;
      && r[0].start == WindowStart(c, first, Back(r) + c.slide)
      && (|r| < c.buckets ==> r[0].start == first)
  {
    hide Aligned;
    SlideShape(c, ring);
    var r := Slide(c, ring).ring;
    StartAt(c, r, |r| - 1);
    MulSucc(|r| - 1, c.slide);
    if |ring| == c.buckets {
      FullRingFront(c, ring, first);
    } else {
      MulMonotone(|r|, c.buckets, c.slide);
    }
  }

  lemma {:induction false} FullRingFront(c: Config, ring: seq<Bucket>, first: nat)
    requires c.Valid() && ring != [] && Contiguous(c, ring) && |ring| == c.buckets
    requires ring[0].start == WindowStart(c, first, Back(ring) + c.slide)
    ensures Back(ring) + c.slide - Span(c) == ring[0].start
  {
    StartAt(c, ring, |ring| - 1);
    MulSucc(|ring| - 1, c.slide);
  }

  /** Every window up to `back`, oldest first, empty ones included. */
  function WindowsUpTo(c: Config, first: nat, log: seq<Arrival>, back: nat): seq<Window>
    requires c.Valid()
    decreases back
  {
    if back < first + c.slide then []
    else
      var start := WindowStart(c, first, back);
      WindowsUpTo(c, first, log, back - c.slide) + [Window(start, back, Covered(log, start, back))]
  }

  lemma {:induction false} SlideTimesKeepsFaithful(c: Config, ring: seq<Bucket>, k: nat, first: nat, log: seq<Arrival>)
    requires c.Valid() && ring != [] && Faithful(c, ring, first, log)
    ensures var r := SlideTimes(c, ring, k);
      && Faithful(c, r.ring, first, log)
      && WindowsUpTo(c, first, log, Back(r.ring)) == WindowsUpTo(c, first, log, Back(ring)) + r.windows
  {
    hide Slide, Covered, Union, Faithful;
    if k > 0 {
      SlideTimesKeepsFaithful(c, ring, k - 1, first, log);
      var before := SlideTimes(c, ring, k - 1);
      SlideKeepsFaithful(c, before.ring, first, log);
      FlushMeaning(c, before.ring, first, log);
      var last := Slide(c, before.ring);
      ConcatAssociates(WindowsUpTo(c, first, log, Back(ring)), before.windows, last.windows);
    }
  }

  lemma {:induction false} CoveredSnoc(log: seq<Arrival>, a: Arrival, lo: nat, end: nat)
    ensures Covered(log + [a], lo, end)
         == Covered(log, lo, end) + (if lo <= a.bucket && a.back < end then multiset{a.event} else multiset{})
  {
    GatherSnoc(log, a, Inside(lo, end));
  }

  lemma {:induction false} CoveredIgnoresLater(log: seq<Arrival>, a: Arrival, lo: nat, end: nat)
    requires end <= a.back
    ensures Covered(log + [a], lo, end) == Covered(log, lo, end)
  {
    CoveredSnoc(log, a, lo, end);
  }

  /** Arrivals handled after a window closed do not belong to it. */
  lemma {:induction false} LaterArrivals(c: Config, first: nat, log: seq<Arrival>, a: Arrival, back: nat)
    requires c.Valid() && back <= a.back
    ensures WindowsUpTo(c, first, log + [a], back) == WindowsUpTo(c, first, log, back)
    decreases back
  {
    hide Covered, WindowStart;
    if first + c.slide <= back {
      LaterArrivals(c, first, log, a, back - c.slide);
      CoveredIgnoresLater(log, a, WindowStart(c, first, back), back);
    }
  }

  /** A bucket at or after the ring's front and at most its back is open. */
  lemma {:induction false} BucketIsOpen(c: Config, ring: seq<Bucket>, start: nat)
    requires c.Valid() && ring != [] && Contiguous(c, ring) && Aligned(c, start)
    ensures Position(ring, start) < |ring| <==> ring[0].start <= start <= Back(ring)
  {
    var p := Position(ring, start);
    if p < |ring| {
      StartBetween(c, ring, p);
    }
    if ring[0].start <= start <= Back(ring) {
      BucketIndex(c, ring, start);
    }
  }

  lemma {:induction false} BucketIndex(c: Config, ring: seq<Bucket>, start: nat)
    requires c.Valid() && ring != [] && Contiguous(c, ring) && Aligned(c, start)
    requires ring[0].start <= start <= Back(ring)
    ensures exists i :: 0 <= i < |ring| && ring[i].start == start
  {
    AlignedDistance(ring[0].start, start, c.slide);
    var i := (start - ring[0].start) / c.slide;
    StartAt(c, ring, |ring| - 1);
    if |ring| - 1 < i {
      MulStrict(|ring| - 1, i, c.slide);
      assert false;
    }
    StartAt(c, ring, i);
  }

  lemma {:induction false} StartBetween(c: Config, ring: seq<Bucket>, i: nat)
    requires c.Valid() && Contiguous(c, ring) && i < |ring|
    ensures ring[0].start <= ring[i].start <= Back(ring)
  {
    StartAt(c, ring, i);
    StartAt(c, ring, |ring| - 1);
    MulMonotone(0, i, c.slide);
    MulMonotone(i, |ring| - 1, c.slide);
  }

  lemma {:induction false} PlaceKeepsFaithful(c: Config, q: Query, e: FlowEvent, first: nat, log: seq<Arrival>)
    requires c.Valid() && Faithful(c, q.ring, first, log) && c.filter(e)
    requires BucketStart(c, e.ts) <= Back(q.ring)
    ensures var start := BucketStart(c, e.ts);
      var r := Place(q, start, e).ring;
      r != [] && Back(r) == Back(q.ring) && Faithful(c, r, first, log + [Arrival(e, start, Back(q.ring))])
  {
    var start := BucketStart(c, e.ts);
    var a := Arrival(e, start, Back(q.ring));
    var r := Place(q, start, e).ring;
    hide InBucket, BucketStart, WindowStart, Logged, Place;
    PlaceIsLogged(c, q, start, a, log);
    LoggedSnoc(c, first, Back(q.ring), log, a);
    SameStartsContiguous(c, q.ring, r);
  }

  lemma {:induction false} SameStartsContiguous(c: Config, a: seq<Bucket>, b: seq<Bucket>)
    requires c.Valid() && Contiguous(c, a)
    requires |a| == |b| && forall i :: 0 <= i < |a| ==> b[i].start == a[i].start
    ensures Contiguous(c, b)
  {
  }

  lemma {:induction false} LoggedSnoc(c: Config, first: nat, back: nat, log: seq<Arrival>, a: Arrival)
    requires c.Valid() && Logged(c, first, back, log) && Aligned(c, back)
    requires a.bucket == BucketStart(c, a.event.ts) && a.bucket <= back && a.back == back && c.filter(a.event)
    ensures Logged(c, first, back, log + [a])
  {
  }

  lemma {:induction false} PlaceIsLogged(c: Config, q: Query, start: nat, a: Arrival, log: seq<Arrival>)
    requires c.Valid() && Contiguous(c, q.ring) && a.bucket == start
    requires forall i :: 0 <= i < |q.ring| ==> q.ring[i].events == InBucket(log, q.ring[i].start)
    ensures var r := Place(q, start, a.event).ring;
      && |r| == |q.ring|
      && (forall i :: 0 <= i < |r| ==> r[i].start == q.ring[i].start)
      && (forall i :: 0 <= i < |r| ==> r[i].events == InBucket(log + [a], r[i].start))
  {
    var r := Place(q, start, a.event).ring;
    OneBucketPerStart(c, q.ring);
    forall i | 0 <= i < |r|
      ensures r[i].events == InBucket(log + [a], r[i].start)
    {
      GatherSnoc(log, a, At(r[i].start));
      var p := Position(q.ring, start);
      if i != p {
        assert r[i] == q.ring[i];
        assert q.ring[i].start != start;
      }
    }
  }

  lemma {:induction false} OneBucketPerStart(c: Config, ring: seq<Bucket>)
    requires c.Valid() && Contiguous(c, ring)
    ensures forall i, j :: 0 <= i < j < |ring| ==> ring[i].start != ring[j].start
  {
    forall i, j | 0 <= i < j < |ring|
      ensures ring[i].start != ring[j].start
    {
      StartAt(c, ring, i);
      StartAt(c, ring, j);
      MulStrict(i, j, c.slide);
    }
  }
}
