/** What holds of every lane at every moment, whatever the interleaving. */
module LaneInvariants {
  import opened Arithmetic
  import opened Options
  import opened WindowRing
  import opened GapRefinement
  import opened QuerySpec
  import opened WindowMeaning
  import opened LaneEngine
  import opened LaneProtocol
  import opened Reports

  // --- times ---

  /** The event time every engine has reached once it knows of `t`. */
  function Reached(s: Setup, t: Option<nat>): nat {
    if t.Some? && t.value > s.initial then t.value else s.initial
  }

  function First(s: Setup, q: nat): nat
    requires q < |s.plans|
  {
    BucketStart(s.plans[q], s.initial)
  }

  /** The newest bucket of query `q` once its engine has reached `t`. */
  function Stand(s: Setup, q: nat, t: Option<nat>): nat
    requires q < |s.plans|
  {
    BucketStart(s.plans[q], Reached(s, t))
  }

  lemma {:induction false} StartMonotone(c: Plan, a: nat, b: nat)
    requires a <= b
    ensures BucketStart(c, a) <= BucketStart(c, b)
  {
    hide BucketStart;
    if BucketStart(c, b) < BucketStart(c, a) {
      AlignedGap(BucketStart(c, b), BucketStart(c, a), c.slide);
      assert false;
    }
  }

  lemma {:induction false} StandMonotone(s: Setup, q: nat, a: Option<nat>, b: Option<nat>)
    requires q < |s.plans| && AtMost(a, b)
    ensures First(s, q) <= Stand(s, q, a) <= Stand(s, q, b)
  {
    hide BucketStart;
    StartMonotone(s.plans[q], Reached(s, a), Reached(s, b));
    StartMonotone(s.plans[q], s.initial, Reached(s, a));
  }

  /** Advancing to a bucket brings an engine to the later of the two times. */
  lemma {:induction false} StandLater(s: Setup, q: nat, a: Option<nat>, t: nat)
    requires q < |s.plans|
    ensures Stand(s, q, Later(a, Some(t))) == Max(Stand(s, q, a), BucketStart(s.plans[q], t))
  {
    hide BucketStart;
    var c := s.plans[q];
    if Reached(s, a) <= t {
      StartMonotone(c, Reached(s, a), t);
    } else {
      StartMonotone(c, t, Reached(s, a));
    }
  }

  function MaxTime(events: seq<FlowEvent>): Option<nat> {
    if events == [] then None else Later(MaxTime(events[..|events| - 1]), Some(events[|events| - 1].ts))
  }

  // --- one lane ---

  predicate Busy(pc: Pc) {
    pc.Receiving? || pc.Handling? || pc.Polling?
  }

  function InHand(pc: Pc): seq<FlowEvent> {
    if pc.Handling? then [pc.event] else []
  }

  function Matching(c: Plan, events: seq<FlowEvent>): seq<FlowEvent> {
    if events == [] then []
    else Matching(c, events[..|events| - 1]) + (if c.filter(events[|events| - 1]) then [events[|events| - 1]] else [])
  }

  function EventsOf(log: seq<Arrival>): seq<FlowEvent> {
    seq(|log|, i requires 0 <= i < |log| => log[i].event)
  }

  /** Every query's ring, pending windows and log agree; the log has exactly the matching
      events the lane has handled. */
  ghost predicate EngineOk(s: Setup, l: Lane) {
    && |l.engine| == |s.plans| == |l.logs|
    && forall q :: 0 <= q < |s.plans| ==>
      && QueryOk(s.plans[q], First(s, q), Stand(s, q, l.floor), Stand(s, q, Later(l.maxTs, l.floor)), l.engine[q], l.logs[q])
      && EventsOf(l.logs[q]) == Matching(s.plans[q], l.handled)
  }

  /** At most one command and then a shutdown is queued, and a lane that is paused is never
      sent a second pause, nor one that is not a checkpoint. */
  predicate QueueOk(l: Lane) {
    && |l.controls| <= 2
    && (|l.controls| == 2 ==> l.controls[1].Shutdown? && !l.controls[0].Shutdown?)
    && (l.controls != [] && l.controls[0].Pause? ==> !l.pc.Paused?)
    && (l.controls != [] && l.controls[0].Checkpoint? ==> l.pc.Paused? && AtMost(l.maxTs, l.controls[0].watermark))
  }

  ghost predicate LaneOk(s: Setup, l: Lane) {
    && |l.engine| == |s.plans| == |l.logs|
    && (l.spoiled || EngineOk(s, l))
    && l.maxTs == MaxTime(l.handled)
    && (!l.pc.Failed? ==> l.sent == l.handled + InHand(l.pc) + l.queue)
    && (!l.dataOpen ==> l.queue == [] && !l.open_ && !Busy(l.pc))
    && (Dead(l) || QueueOk(l))
    && (l.pc.Failed? ==> l.pc.reason == Refused || l.pc.reason == Disconnected)
  }

  // --- engines move together ---

  lemma {:induction false} LoggedSnoc(log: seq<Arrival>, a: Arrival)
    ensures EventsOf(log + [a]) == EventsOf(log) + [a.event]
  {
  }

  lemma {:induction false} MatchingSnoc(c: Plan, events: seq<FlowEvent>, e: FlowEvent)
    ensures Matching(c, events + [e]) == Matching(c, events) + (if c.filter(e) then [e] else [])
  {
    assert (events + [e])[..|events|] == events;
  }

  lemma {:induction false} MaxTimeSnoc(events: seq<FlowEvent>, e: FlowEvent)
    ensures MaxTime(events + [e]) == Later(MaxTime(events), Some(e.ts))
  {
    assert (events + [e])[..|events|] == events;
  }

  lemma {:induction false} LaterSwap(a: Option<nat>, b: Option<nat>, c: Option<nat>)
    ensures Later(Later(a, b), c) == Later(Later(a, c), b)
  {
  }

  /** Handling one event keeps every query's account of itself. */
  lemma {:induction false} HandleKeepsEngine(s: Setup, l: Lane, e: FlowEvent, done: nat)
    requires EngineOk(s, l)
    ensures EngineOk(s, HandleEvent(s, l, e, done))
  {
    hide QueryOk, Stand, Process, Matching, EventsOf, BucketStart, First;
    if CanProcessAll(s.plans, l.engine, e) {
      var after := HandleEvent(s, l, e, done);
      forall q | 0 <= q < |s.plans|
        ensures QueryOk(s.plans[q], First(s, q), Stand(s, q, after.floor), Stand(s, q, Later(after.maxTs, after.floor)),
                        after.engine[q], after.logs[q])
        ensures EventsOf(after.logs[q]) == Matching(s.plans[q], after.handled)
      {
        var c := s.plans[q];
        ProcessOk(c, First(s, q), Stand(s, q, l.floor), Stand(s, q, Later(l.maxTs, l.floor)), l.engine[q], l.logs[q], e);
        StandLater(s, q, Later(l.maxTs, l.floor), e.ts);
        LaterSwap(l.maxTs, Some(e.ts), l.floor);
        MatchingSnoc(c, l.handled, e);
        if c.filter(e) {
          LoggedSnoc(l.logs[q], Arrival(e, BucketStart(c, e.ts), Back(after.engine[q].ring)));
        }
      }
    }
  }

  // --- reports ---

  /** What a lane's report of a checkpoint says, from its logs alone: the windows of every
      query that ended since the last one, and where every ring stands now. */
  ghost predicate ReportOk(s: Setup, r: Report, since: Option<nat>, upto: Option<nat>, includeCurrent: bool, finish: bool) {
    && |r.completed| == |s.plans| == |r.logs| && |r.rings| == |s.plans|
    && (forall q :: 0 <= q < |s.plans| ==> RingOk(s.plans[q], First(s, q), Stand(s, q, upto), r.rings[q], r.logs[q]))
    && (forall q :: 0 <= q < |s.plans| ==>
          WindowsOk(s.plans[q], First(s, q), Stand(s, q, since), Stand(s, q, upto) + (if finish then s.plans[q].slide else 0),
                    r.completed[q], r.logs[q]))
    && (if includeCurrent
        then |r.current| == |s.plans| && forall q :: 0 <= q < |s.plans| ==> CurrentOk(s, q, upto, r.current[q], r.logs[q])
        else r.current == [])
  }

  /** These are the bucket starts of a ring that opened at `first` and stands at `back`. */
  ghost predicate RingOk(c: Plan, first: nat, back: nat, starts: seq<nat>, log: seq<Arrival>) {
    exists ring :: ring != [] && Faithful(c, ring, first, log) && Back(ring) == back && starts == Starts(ring)
  }

  /** Which leaves no choice. */
  lemma {:induction false} RingUnique(c: Plan, first: nat, back: nat, a: seq<nat>, b: seq<nat>, la: seq<Arrival>, lb: seq<Arrival>)
    requires RingOk(c, first, back, a, la) && RingOk(c, first, back, b, lb)
    ensures a == b
  {
    hide Faithful;
    var x :| x != [] && Faithful(c, x, first, la) && Back(x) == back && a == Starts(x);
    var y :| y != [] && Faithful(c, y, first, lb) && Back(y) == back && b == Starts(y);
    SameRing(c, first, x, y, la, lb);
  }

  ghost predicate WindowsOk(c: Plan, first: nat, lo: nat, hi: nat, windows: seq<Window>, log: seq<Arrival>) {
    EndsBetween(c, first, lo, hi, windows) && ReportsLog(c, first, lo, hi, windows, log)
  }

  function OpenWindow(s: Setup, q: nat, t: Option<nat>): Bounds
    requires q < |s.plans|
  {
    (WindowStart(s.plans[q], First(s, q), Stand(s, q, t) + s.plans[q].slide), Stand(s, q, t) + s.plans[q].slide)
  }

  /** The open window at `upto`, with everything logged for it so far. */
  ghost predicate CurrentOk(s: Setup, q: nat, upto: Option<nat>, current: Option<Window>, log: seq<Arrival>)
    requires q < |s.plans|
  {
    && current.Some? && BoundsAt(current.value) == OpenWindow(s, q, upto)
    && current.value.events == Covered(log, current.value.start, current.value.end)
  }

  /** A query's engine stands exactly where the watermark puts it. */
  ghost predicate Arrived(s: Setup, l: Lane, engine: seq<Query>, upto: Option<nat>) {
    && |engine| == |s.plans| == |l.logs|
    && forall q :: 0 <= q < |s.plans| ==>
      && QueryOk(s.plans[q], First(s, q), Stand(s, q, l.floor), Stand(s, q, upto), engine[q], l.logs[q])
      && Back(engine[q].ring) == Stand(s, q, upto)
  }

  lemma {:induction false} LaterOfMax(maxTs: Option<nat>, floor: Option<nat>, watermark: Option<nat>)
    requires AtMost(maxTs, watermark)
    ensures Later(Later(maxTs, floor), watermark) == Later(floor, watermark)
    ensures AtMost(floor, Later(floor, watermark)) && AtMost(watermark, Later(floor, watermark))
  {
  }

  /** Advancing brings a lane whose events do not pass the watermark exactly there. */
  lemma {:induction false} AdvanceArrives(s: Setup, l: Lane, watermark: Option<nat>)
    requires EngineOk(s, l) && AtMost(l.maxTs, watermark)
    ensures var engine := if watermark.Some? then AdvanceAll(s.plans, l.engine, watermark.value) else l.engine;
      Arrived(s, l, engine, Later(l.floor, watermark))
  {
    hide QueryOk, Stand, Advance, BucketStart, First;
    var upto := Later(l.floor, watermark);
    var engine := if watermark.Some? then AdvanceAll(s.plans, l.engine, watermark.value) else l.engine;
    LaterOfMax(l.maxTs, l.floor, watermark);
    forall q | 0 <= q < |s.plans|
      ensures QueryOk(s.plans[q], First(s, q), Stand(s, q, l.floor), Stand(s, q, upto), engine[q], l.logs[q])
      ensures engine[q].ring != [] && Back(engine[q].ring) == Stand(s, q, upto)
    {
      QueryArrives(s, q, l, watermark);
    }
  }

  lemma {:induction false} QueryArrives(s: Setup, q: nat, l: Lane, watermark: Option<nat>)
    requires EngineOk(s, l) && AtMost(l.maxTs, watermark) && q < |s.plans|
    ensures var r := if watermark.Some? then Advance(s.plans[q], l.engine[q], BucketStart(s.plans[q], watermark.value)) else l.engine[q];
      && r.ring != [] && Back(r.ring) == Stand(s, q, Later(l.floor, watermark))
      && QueryOk(s.plans[q], First(s, q), Stand(s, q, l.floor), Stand(s, q, Later(l.floor, watermark)), r, l.logs[q])
  {
    hide Stand, BucketStart, First, Faithful, EndsBetween, ReportsLog, Advance;
    var c, q0 := s.plans[q], l.engine[q];
    var high := Later(l.maxTs, l.floor);
    assert QueryOk(c, First(s, q), Stand(s, q, l.floor), Stand(s, q, high), q0, l.logs[q]);
    LaterOfMax(l.maxTs, l.floor, watermark);
    if watermark.Some? {
      AdvanceOk(c, First(s, q), Stand(s, q, l.floor), Stand(s, q, high), q0, l.logs[q], BucketStart(c, watermark.value));
      StandLater(s, q, high, watermark.value);
      StandLater(s, q, l.floor, watermark.value);
    }
  }

  lemma {:induction false} CurrentIsOpen(s: Setup, l: Lane, engine: seq<Query>, upto: Option<nat>, q: nat)
    requires Arrived(s, l, engine, upto) && q < |s.plans|
    ensures engine[q].ring != []
    ensures CurrentOk(s, q, upto, OpenWindowOf(s.plans[q], engine[q]), l.logs[q])
  {
    hide Stand, First, EndsBetween, ReportsLog, WindowStart, Covered, Union;
    assert QueryOk(s.plans[q], First(s, q), Stand(s, q, l.floor), Stand(s, q, upto), engine[q], l.logs[q]);
    FlushMeaning(s.plans[q], engine[q].ring, First(s, q), l.logs[q]);
  }

  /** A report that is not refused, in terms of the engine at the watermark. */
  lemma {:induction false} BuiltParts(s: Setup, i: nat, l: Lane, watermark: Option<nat>, includeCurrent: bool, finish: bool)
    requires |l.engine| == |s.plans|
    ensures var b := BuildReport(s.plans, i, l.engine, l.logs, watermark, includeCurrent, finish);
      var advanced := if watermark.Some? then AdvanceAll(s.plans, l.engine, watermark.value) else l.engine;
      b.report.lane == i && |b.engine| == |s.plans| && (b.report.ok ==>
        && |b.report.completed| == |s.plans| == |b.report.rings| && b.report.logs == l.logs
        && (forall q :: 0 <= q < |s.plans| ==> b.report.rings[q] == Starts(advanced[q].ring))
        && (forall q :: 0 <= q < |s.plans| ==>
              var ended := if finish then Finish(s.plans[q], advanced[q]) else advanced[q];
              b.engine[q] == Drain(ended) && b.report.completed[q] == ended.emitted)
        && (if includeCurrent then |b.report.current| == |s.plans| && forall q :: 0 <= q < |s.plans| ==>
              b.report.current[q] == OpenWindowOf(s.plans[q], advanced[q])
            else b.report.current == []))
  {
    hide Advance, BucketStart, CanAdvanceAll, CanFinishAll, Starts, TrailingWindow;
    var advanced := if watermark.Some? then AdvanceAll(s.plans, l.engine, watermark.value) else l.engine;
    var ended := if finish then FinishAll(s.plans, advanced) else advanced;
    forall q | 0 <= q < |s.plans|
      ensures ended[q] == if finish then Finish(s.plans[q], advanced[q]) else advanced[q]
      ensures ended[q].ring == advanced[q].ring
    {
    }
  }

  /** The report of a checkpoint is right, and leaves the lane drained at the watermark. */
  lemma {:induction false} ReportIsRight(s: Setup, i: nat, l: Lane, watermark: Option<nat>, includeCurrent: bool, finish: bool)
    requires EngineOk(s, l) && AtMost(l.maxTs, watermark)
    ensures var b := BuildReport(s.plans, i, l.engine, l.logs, watermark, includeCurrent, finish);
      b.report.lane == i && (b.report.ok ==>
        && ReportOk(s, b.report, l.floor, Later(l.floor, watermark), includeCurrent, finish)
        && b.report.logs == l.logs
        && EngineOk(s, l.(engine := b.engine, floor := Later(l.floor, watermark))))
  {
    hide QueryOk, Stand, First, AdvanceAll, EventsOf, Matching, Finish, Drain, WindowsOk, BuildReport, Arrived, CurrentOk, OpenWindowOf, RingOk, Starts;
    var b := BuildReport(s.plans, i, l.engine, l.logs, watermark, includeCurrent, finish);
    var upto := Later(l.floor, watermark);
    var advanced := if watermark.Some? then AdvanceAll(s.plans, l.engine, watermark.value) else l.engine;
    BuiltParts(s, i, l, watermark, includeCurrent, finish);
    AdvanceArrives(s, l, watermark);
    LaterAbsorbs(l.maxTs, watermark, l.floor);
    if b.report.ok {
      forall q | 0 <= q < |s.plans|
        ensures QueryOk(s.plans[q], First(s, q), Stand(s, q, upto), Stand(s, q, upto), b.engine[q], l.logs[q])
        ensures WindowsOk(s.plans[q], First(s, q), Stand(s, q, l.floor), Stand(s, q, upto) + (if finish then s.plans[q].slide else 0),
                          b.report.completed[q], l.logs[q])
        ensures includeCurrent ==> CurrentOk(s, q, upto, b.report.current[q], l.logs[q])
        ensures RingOk(s.plans[q], First(s, q), Stand(s, q, upto), b.report.rings[q], l.logs[q])
      {
        ArrivedSize(s, l, advanced, upto);
        QueryReports(s, l, advanced, upto, q, finish);
        CurrentIsOpen(s, l, advanced, upto, q);
        ArrivedRing(s, l, advanced, upto, q);
      }
    }
  }

  lemma {:induction false} ArrivedRing(s: Setup, l: Lane, engine: seq<Query>, upto: Option<nat>, q: nat)
    requires Arrived(s, l, engine, upto) && q < |s.plans|
    ensures RingOk(s.plans[q], First(s, q), Stand(s, q, upto), Starts(engine[q].ring), l.logs[q])
  {
    hide Stand, First, EndsBetween, ReportsLog, Faithful, Starts;
    assert QueryOk(s.plans[q], First(s, q), Stand(s, q, l.floor), Stand(s, q, upto), engine[q], l.logs[q]);
  }

  lemma {:induction false} ArrivedSize(s: Setup, l: Lane, engine: seq<Query>, upto: Option<nat>)
    requires Arrived(s, l, engine, upto)
    ensures |engine| == |s.plans| == |l.logs|
  {
  }

  lemma {:induction false} LaterAbsorbs(maxTs: Option<nat>, watermark: Option<nat>, floor: Option<nat>)
    requires AtMost(maxTs, watermark)
    ensures Later(maxTs, Later(floor, watermark)) == Later(floor, watermark)
  {
  }

  lemma {:induction false} QueryReports(s: Setup, l: Lane, engine: seq<Query>, upto: Option<nat>, q: nat, finish: bool)
    requires Arrived(s, l, engine, upto) && q < |s.plans|
    ensures var ended := if finish then Finish(s.plans[q], engine[q]) else engine[q];
      && WindowsOk(s.plans[q], First(s, q), Stand(s, q, l.floor), Stand(s, q, upto) + (if finish then s.plans[q].slide else 0),
                   ended.emitted, l.logs[q])
      && QueryOk(s.plans[q], First(s, q), Stand(s, q, upto), Stand(s, q, upto), Drain(ended), l.logs[q])
  {
    hide Stand, First, Faithful, EndsBetween, ReportsLog;
    var c := s.plans[q];
    assert QueryOk(c, First(s, q), Stand(s, q, l.floor), Stand(s, q, upto), engine[q], l.logs[q]);
    DrainOk(c, First(s, q), Stand(s, q, l.floor), Stand(s, q, upto), engine[q], l.logs[q]);
    if finish {
      FinishOk(c, First(s, q), Stand(s, q, l.floor), Stand(s, q, upto), engine[q], l.logs[q]);
      assert Drain(Finish(c, engine[q])) == Drain(engine[q]);
    }
  }
}
