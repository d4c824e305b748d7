/** What one lane's engine holds between two checkpoints: for every query, where its ring
    stands and what its pending windows report. */
module LaneEngine {
  import opened Arithmetic
  import opened WindowRing
  import opened GapRefinement
  import opened QuerySpec
  import opened WindowMeaning
  import opened WindowRuns
  import opened Reports

  type Plans = seq<Plan>

  ghost predicate EndsBetween(c: Plan, first: nat, lo: nat, hi: nat, windows: seq<Window>) {
    forall i :: 0 <= i < |windows| ==> OnGrid(c, first, lo, hi, (windows[i].start, windows[i].end))
  }

  /** A query that opened at `first`, was last drained at `low`, and has not passed `high`. */
  ghost predicate QueryOk(c: Plan, first: nat, low: nat, high: nat, q: Query, log: seq<Arrival>) {
    && q.ring != [] && Faithful(c, q.ring, first, log)
    && Aligned(c, low) && first <= low <= Back(q.ring) <= high
    && EndsBetween(c, first, low, Back(q.ring), q.emitted)
    && ReportsLog(c, first, low, Back(q.ring), q.emitted, log)
  }

  /** Where an event goes in the log, when it matches. */
  function LogEvent(c: Plan, after: Query, e: FlowEvent, log: seq<Arrival>): seq<Arrival>
    requires after.ring != []
  {
    if c.filter(e) then log + [Arrival(e, BucketStart(c, e.ts), Back(after.ring))] else log
  }

  lemma {:induction false} SlideEnds(c: Plan, ring: seq<Bucket>, k: nat, first: nat, log: seq<Arrival>)
    requires ring != [] && Faithful(c, ring, first, log)
    ensures EndsBetween(c, first, Back(ring), Back(SlideTimes(c, ring, k).ring), SlideTimes(c, ring, k).windows)
    ensures Back(ring) <= Back(SlideTimes(c, ring, k).ring)
    decreases k
  {
    hide Slide, Covered, Faithful, WindowStart;
    if k > 0 {
      SlideEnds(c, ring, k - 1, first, log);
      SlideTimesKeepsFaithful(c, ring, k - 1, first, log);
      var before := SlideTimes(c, ring, k - 1);
      SlideKeepsFaithful(c, before.ring, first, log);
      FlushMeaning(c, before.ring, first, log);
      FaithfulBack(c, before.ring, first, log);
      AlignedStep(Back(before.ring), c.slide);
    }
  }

  lemma {:induction false} FaithfulBack(c: Plan, ring: seq<Bucket>, first: nat, log: seq<Arrival>)
    requires ring != [] && Faithful(c, ring, first, log)
    ensures Aligned(c, Back(ring)) && Aligned(c, first) && first <= Back(ring) && Contiguous(c, ring)
  {
  }

  /** The windows an advance closes lie between the old and the new newest bucket. */
  lemma {:induction false} AdvanceEnds(c: Plan, ring: seq<Bucket>, target: nat, first: nat, log: seq<Arrival>)
    requires ring != [] && Faithful(c, ring, first, log) && Aligned(c, target)
    ensures var a := FastAdvance(c, ring, target);
      a.ring != [] && EndsBetween(c, first, Back(ring), Back(a.ring), a.windows)
  {
    hide SlideTimes, Faithful, OnGrid;
    FaithfulBack(c, ring, first, log);
    FastRefinesSlow(c, ring, target);
    SlideEnds(c, ring, SlidesTo(c, ring, target), first, log);
  }

  /** ... and report exactly the log's windows there. */
  lemma {:induction false} AdvanceReports(c: Plan, ring: seq<Bucket>, target: nat, first: nat, log: seq<Arrival>)
    requires ring != [] && Faithful(c, ring, first, log) && Aligned(c, target)
    ensures var a := FastAdvance(c, ring, target);
      && a.ring != [] && Faithful(c, a.ring, first, log) && Back(a.ring) == Max(Back(ring), target)
      && ReportsLog(c, first, Back(ring), Back(a.ring), a.windows, log)
  {
    hide Faithful, WindowsUpTo, Covered, FastAdvance, Meaning, WindowStart, Aligned;
    AdvanceMeaning(c, ring, target, first, log);
    FaithfulBack(c, ring, first, log);
    var a := FastAdvance(c, ring, target);
    FaithfulBack(c, a.ring, first, log);
    forall key: Bounds
      ensures EventsAt(a.windows, key)
           == if OnGrid(c, first, Back(ring), Back(a.ring), key) then Covered(log, key.0, key.1) else multiset{}
    {
      EventsAtUpTo(c, first, log, Back(ring), key);
      EventsAtUpTo(c, first, log, Back(a.ring), key);
      EventsAtNonEmpty(WindowsUpTo(c, first, log, Back(ring)), key);
      EventsAtNonEmpty(WindowsUpTo(c, first, log, Back(a.ring)), key);
      EventsAtNonEmpty(a.windows, key);
      EventsAtConcat(NonEmpty(WindowsUpTo(c, first, log, Back(ring))), NonEmpty(a.windows), key);
    }
  }

  lemma {:induction false} GrownReports(c: Plan, first: nat, lo: nat, mid: nat, hi: nat, a: seq<Window>, b: seq<Window>,
                                        log: seq<Arrival>)
    requires lo <= mid <= hi
    requires ReportsLog(c, first, lo, mid, a, log) && ReportsLog(c, first, mid, hi, b, log)
    requires EndsBetween(c, first, lo, mid, a) && EndsBetween(c, first, mid, hi, b)
    ensures ReportsLog(c, first, lo, hi, a + b, log) && EndsBetween(c, first, lo, hi, a + b)
  {
    hide Covered, WindowStart, Aligned, EventsAt;
    forall key: Bounds
      ensures EventsAt(a + b, key)
           == if OnGrid(c, first, lo, hi, key) then Covered(log, key.0, key.1) else multiset{}
    {
      EventsAtConcat(a, b, key);
    }
  }

  lemma {:induction false} AdvanceOk(c: Plan, first: nat, low: nat, high: nat, q: Query, log: seq<Arrival>, target: nat)
    requires QueryOk(c, first, low, high, q, log) && Aligned(c, target)
    ensures var r := Advance(c, q, target);
      && QueryOk(c, first, low, Max(high, target), r, log)
      && Back(r.ring) == Max(Back(q.ring), target)
  {
    hide Faithful, FastAdvance, OnGrid, ReportsLog, EndsBetween, Aligned;
    AdvanceEnds(c, q.ring, target, first, log);
    AdvanceReports(c, q.ring, target, first, log);
    var a := FastAdvance(c, q.ring, target);
    GrownReports(c, first, low, Back(q.ring), Back(a.ring), q.emitted, a.windows, log);
  }

  /** An event handled at the newest bucket belongs to no window that has closed. */
  lemma {:induction false} OpenArrival(c: Plan, first: nat, low: nat, hi: nat, windows: seq<Window>, log: seq<Arrival>, a: Arrival)
    requires ReportsLog(c, first, low, hi, windows, log) && hi <= a.back
    ensures ReportsLog(c, first, low, hi, windows, log + [a])
  {
    hide Covered, WindowStart, Aligned, EventsAt;
    forall key: Bounds
      ensures EventsAt(windows, key)
           == if OnGrid(c, first, low, hi, key) then Covered(log + [a], key.0, key.1) else multiset{}
    {
      if key.1 <= hi {
        CoveredIgnoresLater(log, a, key.0, key.1);
      }
    }
  }

  lemma {:induction false} PlaceOk(c: Plan, first: nat, low: nat, high: nat, q: Query, log: seq<Arrival>, e: FlowEvent)
    requires QueryOk(c, first, low, high, q, log) && c.filter(e) && BucketStart(c, e.ts) <= Back(q.ring)
    ensures var r := Place(q, BucketStart(c, e.ts), e);
      && r.ring != [] && Back(r.ring) == Back(q.ring)
      && QueryOk(c, first, low, high, r, log + [Arrival(e, BucketStart(c, e.ts), Back(q.ring))])
  {
    hide Faithful, OnGrid, ReportsLog, EndsBetween, BucketStart, Aligned;
    PlaceKeepsFaithful(c, q, e, first, log);
    OpenArrival(c, first, low, Back(q.ring), q.emitted, log, Arrival(e, BucketStart(c, e.ts), Back(q.ring)));
  }

  lemma {:induction false} ProcessOk(c: Plan, first: nat, low: nat, high: nat, q: Query, log: seq<Arrival>, e: FlowEvent)
    requires QueryOk(c, first, low, high, q, log)
    ensures var r := Process(c, q, e);
      && r.ring != []
      && QueryOk(c, first, low, Max(high, BucketStart(c, e.ts)), r, LogEvent(c, r, e, log))
  {
    hide Faithful, OnGrid, ReportsLog, EndsBetween, Advance, Place, Aligned;
    var start := BucketStart(c, e.ts);
    if c.filter(e) {
      assert Aligned(c, start);
      AdvanceOk(c, first, low, high, q, log, start);
      PlaceOk(c, first, low, Max(high, start), Advance(c, q, start), log, e);
    }
  }

  /** After a drain nothing is pending and the next window ends beyond the newest bucket. */
  lemma {:induction false} DrainOk(c: Plan, first: nat, low: nat, high: nat, q: Query, log: seq<Arrival>)
    requires QueryOk(c, first, low, high, q, log)
    ensures QueryOk(c, first, Back(q.ring), high, Drain(q), log)
  {
    hide Covered, WindowStart;
    FaithfulBack(c, q.ring, first, log);
  }

  /** Two rings of queries that opened together and stand together have the same buckets. */
  lemma {:induction false} SameRing(c: Plan, first: nat, a: seq<Bucket>, b: seq<Bucket>, la: seq<Arrival>, lb: seq<Arrival>)
    requires a != [] && b != [] && Faithful(c, a, first, la) && Faithful(c, b, first, lb) && Back(a) == Back(b)
    ensures |a| == |b| && forall i :: 0 <= i < |a| ==> a[i].start == b[i].start
  {
    hide Logged, InBucket, WindowStart;
    StartAt(c, a, |a| - 1);
    StartAt(c, b, |b| - 1);
    if |a| < |b| {
      MulStrict(|a| - 1, |b| - 1, c.slide);
      assert false;
    }
    if |b| < |a| {
      MulStrict(|b| - 1, |a| - 1, c.slide);
      assert false;
    }
    forall i | 0 <= i < |a|
      ensures a[i].start == b[i].start
    {
      StartAt(c, a, i);
      StartAt(c, b, i);
    }
  }

  /** The trailing window of a finished query comes after every window closed so far. */
  lemma {:induction false} FinishOk(c: Plan, first: nat, low: nat, high: nat, q: Query, log: seq<Arrival>)
    requires QueryOk(c, first, low, high, q, log)
    ensures var r := Finish(c, q);
      && EndsBetween(c, first, low, Back(q.ring) + c.slide, r.emitted)
      && ReportsLog(c, first, low, Back(q.ring) + c.slide, r.emitted, log)
      && r.ring == q.ring
  {
    hide Faithful, Covered, WindowStart, Union;
    var back := Back(q.ring);
    var w := TrailingWindow(c, q.ring);
    FaithfulBack(c, q.ring, first, log);
    FlushMeaning(c, q.ring, first, log);
    AlignedStep(back, c.slide);
    TrailingReports(c, first, back, w, log);
    GrownReports(c, first, low, back, back + c.slide, q.emitted, [w], log);
  }

  lemma {:induction false} TrailingReports(c: Plan, first: nat, back: nat, w: Window, log: seq<Arrival>)
    requires Aligned(c, back) && w.end == back + c.slide && w.start == WindowStart(c, first, w.end)
    requires w.events == Covered(log, w.start, w.end) && Aligned(c, w.end)
    ensures ReportsLog(c, first, back, back + c.slide, [w], log) && EndsBetween(c, first, back, back + c.slide, [w])
  {
    hide Covered, WindowStart;
    forall key: Bounds
      ensures EventsAt([w], key)
           == if OnGrid(c, first, back, back + c.slide, key) then Covered(log, key.0, key.1) else multiset{}
    {
      EventsAtOne(w, key);
      if back < key.1 <= back + c.slide && Aligned(c, key.1) {
        AlignedGap(back, key.1, c.slide);
      }
    }
  }

  /** A query opened by its first advance. */
  lemma {:induction false} OpenOk(c: Plan, target: nat)
    requires Aligned(c, target)
    ensures var q := Advance(c, Query([], [], 0), target);
      q.ring != [] && Back(q.ring) == target && QueryOk(c, target, target, target, q, [])
  {
    OpenedFaithful(c, target);
    var q := Advance(c, Query([], [], 0), target);
    assert q.ring == [Bucket(target, multiset{})] && q.emitted == [];
  }
}
