/** Whole runs of one query: any sequence of process, advance, drain and finish
    calls, refused ones included. */
module WindowRuns {
  import opened Arithmetic
  import opened WindowRing
  import opened GapRefinement
  import opened QuerySpec
  import opened WindowMeaning

  datatype Op = Handle(event: FlowEvent) | AdvanceTo(ts: nat) | TakeWindows | EndStream

  /** A window, how many matching events had been handled when it closed, and whether it
      was closed by the end of the stream only. */
  datatype Output = Output(window: Window, seen: nat, trailing: bool)

  /** `first` is the first bucket ever opened; it has no meaning before that. */
  datatype Run = Run(query: Query, first: nat, log: seq<Arrival>, outputs: seq<Output>)

  const Start: Run := Run(Query([], [], 0), 0, [], [])

  function Outputs(windows: seq<Window>, seen: nat, trailing: bool): (r: seq<Output>)
    ensures |r| == |windows|
    ensures forall i :: 0 <= i < |r| ==> r[i] == Output(windows[i], seen, trailing)
  {
    seq(|windows|, i requires 0 <= i < |windows| => Output(windows[i], seen, trailing))
  }

  /** The windows that time has closed, in order. */
  function Closed(outputs: seq<Output>): seq<Window> {
    if outputs == [] then []
    else
      var last := outputs[|outputs| - 1];
      Closed(outputs[..|outputs| - 1]) + (if last.trailing then [] else [last.window])
  }

  lemma {:induction false} ClosedSnoc(outputs: seq<Output>, o: Output)
    ensures Closed(outputs + [o]) == Closed(outputs) + if o.trailing then [] else [o.window]
  {
    assert (outputs + [o])[..|outputs|] == outputs;
  }

  lemma {:induction false} ClosedMore(outputs: seq<Output>, windows: seq<Window>, seen: nat, trailing: bool)
    ensures Closed(outputs + Outputs(windows, seen, trailing)) == Closed(outputs) + if trailing then [] else windows
  {
    hide Closed;
    if windows == [] {
      assert outputs + Outputs(windows, seen, trailing) == outputs;
    } else {
      var init, last := windows[..|windows| - 1], windows[|windows| - 1];
      ClosedMore(outputs, init, seen, trailing);
      var before, o := outputs + Outputs(init, seen, trailing), Output(last, seen, trailing);
      assert outputs + Outputs(windows, seen, trailing) == before + [o];
      ClosedSnoc(before, o);
      if !trailing {
        assert Closed(outputs) + init + [last] == Closed(outputs) + windows;
      }
    }
  }

  /** Note what a call changed: newly emitted windows and the opening bucket. */
  function Note(r: Run, q: Query, log: seq<Arrival>, trailing: bool): Run
    requires |r.query.emitted| <= |q.emitted|
  {
    Run(q, if r.query.ring == [] && q.ring != [] then q.ring[0].start else r.first, log,
        r.outputs + Outputs(q.emitted[|r.query.emitted|..], |r.log|, trailing))
  }

  function AdvanceRun(c: Config, r: Run, target: nat): Run
    requires c.Valid()
  {
    Note(r, Advance(c, r.query, target), r.log, false)
  }

  function PlaceRun(c: Config, r: Run, e: FlowEvent): Run
    requires c.Valid() && r.query.ring != []
  {
    var start := BucketStart(c, e.ts);
    r.(query := Place(r.query, start, e), log := r.log + [Arrival(e, start, Back(r.query.ring))])
  }

  lemma {:induction false} AdvanceOpens(c: Config, q: Query, target: nat)
    requires c.Valid()
    ensures Advance(c, q, target).ring != []
  {
  }

  function Step(c: Config, r: Run, op: Op): Run
    requires c.Valid()
  {
    match op
    case Handle(e) =>
      if c.filter(e) && CanProcess(c, r.query, e) then
        AdvanceOpens(c, r.query, BucketStart(c, e.ts));
        PlaceRun(c, AdvanceRun(c, r, BucketStart(c, e.ts)), e)
      else r
    case AdvanceTo(ts) =>
      var target := BucketStart(c, ts);
      if CanAdvance(c, r.query, target) then AdvanceRun(c, r, target) else r
    case TakeWindows => r.(query := Drain(r.query))
    case EndStream => if CanFinish(c, r.query) then Note(r, Finish(c, r.query), r.log, true) else r
  }

  function Exec(c: Config, ops: seq<Op>): Run
    requires c.Valid()
  {
    if ops == [] then Start else Step(c, Exec(c, ops[..|ops| - 1]), ops[|ops| - 1])
  }

  /** The run's query is exactly the one the step functions describe. */
  lemma {:induction false} HandleIsProcess(c: Config, r: Run, e: FlowEvent)
    requires c.Valid() && CanProcess(c, r.query, e)
    ensures Step(c, r, Handle(e)).query == Process(c, r.query, e)
  {
  }

  /** What an event does to a run: nothing unless it matches and its windows fit; then it is
      logged with its bucket and the newest one. */
  lemma {:induction false} HandleLogs(c: Config, r: Run, e: FlowEvent)
    requires c.Valid()
    ensures var s := Step(c, r, Handle(e));
      && (!c.filter(e) || !CanAdvance(c, r.query, BucketStart(c, e.ts)) ==> s == r)
      && (c.filter(e) && CanAdvance(c, r.query, BucketStart(c, e.ts)) ==>
            s.query.ring != [] && s.log == r.log + [Arrival(e, BucketStart(c, e.ts), Back(s.query.ring))])
  {
    hide BucketStart, FastAdvance;
    if c.filter(e) && CanProcess(c, r.query, e) {
      AdvanceOpens(c, r.query, BucketStart(c, e.ts));
      PlaceStays(AdvanceRun(c, r, BucketStart(c, e.ts)).query, BucketStart(c, e.ts), e);
    }
  }

  lemma {:induction false} PlaceStays(q: Query, start: nat, e: FlowEvent)
    requires q.ring != []
    ensures Place(q, start, e).ring != [] && Back(Place(q, start, e).ring) == Back(q.ring)
  {
  }

  /** The log of a run has matching events only, each with the bucket of its time. */
  lemma {:induction false} LogMatches(c: Config, ops: seq<Op>)
    requires c.Valid()
    ensures forall a :: a in Exec(c, ops).log ==> c.filter(a.event) && a.bucket == BucketStart(c, a.event.ts)
  {
    hide BucketStart, Advance, Place, Finish;
    if ops != [] {
      LogMatches(c, ops[..|ops| - 1]);
    }
  }

  function Within(lo: nat, end: nat): Arrival -> bool {
    (a: Arrival) => lo <= a.bucket < end
  }

  /** A closed window: its bounds, on bucket boundaries, and exactly the events that had been
      handled by then whose bucket lies inside them. */
  ghost predicate Meaning(c: Config, first: nat, before: seq<Arrival>, w: Window)
    requires c.Valid()
  {
    && w.start == WindowStart(c, first, w.end) && w.start < w.end && Aligned(c, w.end)
    && w.events == Gather(before, Within(w.start, w.end))
  }

  /** An arrival whose bucket had expired when it was handled. */
  predicate WasLate(c: Config, first: nat, a: Arrival) {
    a.bucket < WindowStart(c, first, a.back + c.slide)
  }

  function LateCount(c: Config, first: nat, log: seq<Arrival>): nat {
    if log == [] then 0
    else LateCount(c, first, log[..|log| - 1]) + (if WasLate(c, first, log[|log| - 1]) then 1 else 0)
  }

  ghost predicate OutputsHold(c: Config, first: nat, log: seq<Arrival>, outputs: seq<Output>)
    requires c.Valid()
  {
    forall i :: 0 <= i < |outputs| ==>
      outputs[i].seen <= |log| && Meaning(c, first, log[..outputs[i].seen], outputs[i].window)
  }

  /** No window with events was skipped or closed twice: those that time has closed are the
      non-empty ones up to the newest bucket, in order. */
  ghost predicate Complete(c: Config, r: Run)
    requires c.Valid() && r.query.ring != []
  {
    NonEmpty(Closed(r.outputs)) == NonEmpty(WindowsUpTo(c, r.first, r.log, Back(r.query.ring)))
  }

  ghost predicate RunHolds(c: Config, r: Run)
    requires c.Valid()
  {
    && |r.query.emitted| <= c.capacity
    && OutputsHold(c, r.first, r.log, r.outputs)
    && r.query.late == LateCount(c, r.first, r.log)
    && (if r.query.ring == [] then r.log == [] && r.outputs == []
        else Faithful(c, r.query.ring, r.first, r.log) && Complete(c, r))
  }

  lemma {:induction false} MeaningAtClose(c: Config, ring: seq<Bucket>, first: nat, log: seq<Arrival>)
    requires c.Valid() && Faithful(c, ring, first, log)
    ensures Meaning(c, first, log, TrailingWindow(c, ring))
  {
    FlushMeaning(c, ring, first, log);
    var w := TrailingWindow(c, ring);
    GatherSame(log, Inside(w.start, w.end), Within(w.start, w.end));
    StartBetween(c, ring, 0);
    AlignedStep(Back(ring), c.slide);
  }

  lemma {:induction false} SlidesMeaning(c: Config, ring: seq<Bucket>, k: nat, first: nat, log: seq<Arrival>)
    requires c.Valid() && ring != [] && Faithful(c, ring, first, log)
    ensures var r := SlideTimes(c, ring, k);
      forall i :: 0 <= i < |r.windows| ==> Meaning(c, first, log, r.windows[i])
  {
    hide Slide, Meaning, Faithful;
    if k > 0 {
      SlidesMeaning(c, ring, k - 1, first, log);
      SlideTimesKeepsFaithful(c, ring, k - 1, first, log);
      var before := SlideTimes(c, ring, k - 1);
      SlideKeepsFaithful(c, before.ring, first, log);
      MeaningAtClose(c, before.ring, first, log);
    }
  }

  lemma {:induction false} OpenedFaithful(c: Config, target: nat)
    requires c.Valid() && Aligned(c, target)
    ensures Faithful(c, [Bucket(target, multiset{})], target, [])
  {
    MulMonotone(1, c.buckets, c.slide);
  }

  /** An advance keeps the ring faithful; the windows it closes, once those
      without events are dropped, are exactly the next ones by their ends. */
  lemma {:induction false} AdvanceMeaning(c: Config, ring: seq<Bucket>, target: nat, first: nat, log: seq<Arrival>)
    requires c.Valid() && ring != [] && Faithful(c, ring, first, log) && Aligned(c, target)
    ensures var a := FastAdvance(c, ring, target);
      && a.ring != [] && Faithful(c, a.ring, first, log)
      && Back(a.ring) == Max(Back(ring), target)
      && (forall i :: 0 <= i < |a.windows| ==> Meaning(c, first, log, a.windows[i]))
      && NonEmpty(WindowsUpTo(c, first, log, Back(a.ring)))
         == NonEmpty(WindowsUpTo(c, first, log, Back(ring))) + NonEmpty(a.windows)
  {
    hide Slide, Meaning, WindowsUpTo, FastAdvance, SlideTimes, NonEmpty, InBucket, Logged;
    FastRefinesSlow(c, ring, target);
    var k := SlidesTo(c, ring, target);
    SlidesMeaning(c, ring, k, first, log);
    SlideTimesKeepsFaithful(c, ring, k, first, log);
    SlideTimesShape(c, ring, k);
    if Back(ring) <= target {
      SlidesReachTarget(c, ring, target);
    }
    NonEmptyConcat(WindowsUpTo(c, first, log, Back(ring)), SlideTimes(c, ring, k).windows);
  }

  lemma {:induction false} AdvanceRunHolds(c: Config, r: Run, target: nat)
    requires c.Valid() && RunHolds(c, r) && Aligned(c, target) && CanAdvance(c, r.query, target)
    ensures var s := AdvanceRun(c, r, target);
      RunHolds(c, s) && s.query.ring != [] && target <= Back(s.query.ring)
  {
    hide Meaning, Faithful, NonEmpty, WindowsUpTo, Closed;
    var s := AdvanceRun(c, r, target);
    var ring := r.query.ring;
    AdvanceComplete(c, r, target);
    if ring == [] {
      OpenedFaithful(c, target);
    } else {
      AdvanceMeaning(c, ring, target, r.first, r.log);
      assert r.log[..|r.log|] == r.log;
      AdvanceCount(c, ring, target, r.first, r.log);
    }
  }

  lemma {:induction false} AdvanceComplete(c: Config, r: Run, target: nat)
    requires c.Valid() && RunHolds(c, r) && Aligned(c, target)
    ensures var s := AdvanceRun(c, r, target);
      s.query.ring != [] && Complete(c, s)
  {
    hide Meaning, Faithful, OutputsHold, FastAdvance;
    var s := AdvanceRun(c, r, target);
    var a := FastAdvance(c, r.query.ring, target);
    assert s.query.emitted[|r.query.emitted|..] == a.windows;
    ClosedMore(r.outputs, a.windows, |r.log|, false);
    if r.query.ring == [] {
      NothingClosed(c, target);
    } else {
      AdvanceMeaning(c, r.query.ring, target, r.first, r.log);
      NonEmptyConcat(Closed(r.outputs), a.windows);
    }
  }

  lemma {:induction false} NothingClosed(c: Config, target: nat)
    requires c.Valid()
    ensures FastAdvance(c, [], target) == Advanced([Bucket(target, multiset{})], [])
    ensures WindowsUpTo(c, target, [], target) == [] && Closed([]) == []
  {
  }

  lemma {:induction false} AdvanceCount(c: Config, ring: seq<Bucket>, target: nat, first: nat, log: seq<Arrival>)
    requires c.Valid() && Faithful(c, ring, first, log) && Aligned(c, target)
    ensures |FastAdvance(c, ring, target).windows| == WindowsClosed(c, ring, target)
  {
    FastRefinesSlow(c, ring, target);
  }

  lemma {:induction false} PlaceRunHolds(c: Config, r: Run, e: FlowEvent)
    requires c.Valid() && RunHolds(c, r) && r.query.ring != [] && c.filter(e)
    requires BucketStart(c, e.ts) <= Back(r.query.ring)
    ensures RunHolds(c, PlaceRun(c, r, e))
  {
    hide Meaning, Gather, BucketStart, Faithful, WindowStart, WindowsUpTo, Closed, NonEmpty;
    var start := BucketStart(c, e.ts);
    var s := PlaceRun(c, r, e);
    LaterArrivals(c, r.first, r.log, Arrival(e, start, Back(r.query.ring)), Back(r.query.ring));
    PlaceKeepsFaithful(c, r.query, e, r.first, r.log);
    PlaceCountsLate(c, r.query, r.first, r.log, start);
    assert s.log[..|r.log|] == r.log;
    OutputsOutlive(c, r.first, r.log, s.log, r.outputs);
  }

  lemma {:induction false} PlaceCountsLate(c: Config, q: Query, first: nat, log: seq<Arrival>, start: nat)
    requires c.Valid() && Faithful(c, q.ring, first, log) && Aligned(c, start) && start <= Back(q.ring)
    ensures Position(q.ring, start) < |q.ring| <==> !(start < WindowStart(c, first, Back(q.ring) + c.slide))
  {
    BucketIsOpen(c, q.ring, start);
  }

  /** What a window held when it closed does not change as the log grows. */
  lemma {:induction false} OutputsOutlive(c: Config, first: nat, log: seq<Arrival>, longer: seq<Arrival>, outputs: seq<Output>)
    requires c.Valid() && OutputsHold(c, first, log, outputs) && log <= longer
    ensures OutputsHold(c, first, longer, outputs)
  {
    forall i | 0 <= i < |outputs|
      ensures outputs[i].seen <= |longer| && Meaning(c, first, longer[..outputs[i].seen], outputs[i].window)
    {
      assert longer[..outputs[i].seen] == log[..outputs[i].seen];
    }
  }

  lemma {:induction false} StepHolds(c: Config, r: Run, op: Op)
    requires c.Valid() && RunHolds(c, r)
    ensures RunHolds(c, Step(c, r, op))
  {
    hide Meaning, Faithful, Advance, Place, NonEmpty, WindowsUpTo, Closed;
    match op
    case Handle(e) =>
      if c.filter(e) && CanProcess(c, r.query, e) {
        AdvanceRunHolds(c, r, BucketStart(c, e.ts));
        PlaceRunHolds(c, AdvanceRun(c, r, BucketStart(c, e.ts)), e);
      }
    case AdvanceTo(ts) =>
      if CanAdvance(c, r.query, BucketStart(c, ts)) {
        AdvanceRunHolds(c, r, BucketStart(c, ts));
      }
    case TakeWindows =>
    case EndStream =>
      if CanFinish(c, r.query) && r.query.ring != [] {
        EndHolds(c, r);
      }
  }

  lemma {:induction false} EndHolds(c: Config, r: Run)
    requires c.Valid() && RunHolds(c, r) && CanFinish(c, r.query) && r.query.ring != []
    ensures RunHolds(c, Note(r, Finish(c, r.query), r.log, true))
  {
    hide Meaning, Faithful, NonEmpty, WindowsUpTo, Closed, TrailingWindow;
    var s := Note(r, Finish(c, r.query), r.log, true);
    var w := TrailingWindow(c, r.query.ring);
    MeaningAtClose(c, r.query.ring, r.first, r.log);
    assert r.log[..|r.log|] == r.log;
    assert s.query.emitted[|r.query.emitted|..] == [w];
    assert s.outputs == r.outputs + Outputs([w], |r.log|, true);
    ClosedMore(r.outputs, [w], |r.log|, true);
    assert Closed(s.outputs) == Closed(r.outputs) + [] == Closed(r.outputs);
  }

  /** Over every run: each emitted window ends on a bucket boundary `e`, starts at the later
      of the first bucket ever opened and `e - buckets * slide`, and holds exactly the
      matching events handled before it closed whose bucket lies inside it; every such
      window that holds events and that time has passed was emitted once and in order; the
      ring stays contiguous and bounded, the pending list bounded, and the late
      counter counts exactly the arrivals whose bucket had expired. */
  lemma {:induction false} EveryRunHolds(c: Config, ops: seq<Op>)
    requires c.Valid()
    ensures RunHolds(c, Exec(c, ops))
  {
    if ops != [] {
      EveryRunHolds(c, ops[..|ops| - 1]);
      StepHolds(c, Exec(c, ops[..|ops| - 1]), ops[|ops| - 1]);
    }
  }
}
