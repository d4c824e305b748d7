/** The watermark of a checkpoint is the newest event time that its lanes acknowledged, and
    what it publishes counts exactly the events they acknowledged. */
module LaneWatermark {
  import opened LaneBarrier
  import opened LaneEngine
  import opened LaneInvariants
  import opened LaneProtocol
  import opened Options
  import opened WindowMeaning
  import opened WindowRing

  // --- newest times ---

  ghost predicate NoneAfter(events: seq<FlowEvent>, t: Option<nat>) {
    forall e :: e in events ==> t.Some? && e.ts <= t.value
  }

  ghost predicate SomeAt(events: seq<FlowEvent>, t: nat) {
    exists e :: e in events && e.ts == t
  }

  /** `t` is the newest time among these events, and absent only without any. */
  ghost predicate NewestIn(t: Option<nat>, events: seq<FlowEvent>) {
    NoneAfter(events, t) && (t.Some? ==> SomeAt(events, t.value))
  }

  lemma {:induction false} MaxTimeIsNewest(events: seq<FlowEvent>)
    ensures NewestIn(MaxTime(events), events)
  {
    if events != [] {
      var init, last := events[..|events| - 1], events[|events| - 1];
      MaxTimeIsNewest(init);
      assert last in events;
      assert forall e :: e in events <==> e in init || e == last;
    }
  }

  /** The events a lane had handled when it acknowledged. */
  function AckedEvents(a: Ack, lanes: seq<Lane>): seq<FlowEvent> {
    if a.lane < |lanes| && a.handled <= |lanes[a.lane].handled| then lanes[a.lane].handled[..a.handled] else []
  }

  /** `t` is the newest time among all events acknowledged, and absent only without any. */
  ghost predicate NewestAcked(t: Option<nat>, acks: seq<Ack>, lanes: seq<Lane>) {
    && (forall a :: a in acks ==> NoneAfter(AckedEvents(a, lanes), t))
    && (t.Some? ==> exists a :: a in acks && SomeAt(AckedEvents(a, lanes), t.value))
  }

  /** The acknowledgement says what the lane had handled. */
  ghost predicate AckTrue(a: Ack, lanes: seq<Lane>) {
    && a.lane < |lanes| && a.handled <= |lanes[a.lane].handled|
    && a.maxTs == MaxTime(lanes[a.lane].handled[..a.handled])
  }

  ghost predicate AcksTrue(acks: seq<Ack>, lanes: seq<Lane>) {
    forall a :: a in acks ==> AckTrue(a, lanes)
  }

  lemma {:induction false} WatermarkIsNewest(acks: seq<Ack>, lanes: seq<Lane>)
    requires AcksTrue(acks, lanes)
    ensures NewestAcked(Watermark(acks), acks, lanes)
  {
    hide MaxTime;
    if acks != [] {
      var init, last := acks[..|acks| - 1], acks[|acks| - 1];
      assert acks == init + [last];
      WatermarkIsNewest(init, lanes);
      assert AckTrue(last, lanes);
      MaxTimeIsNewest(AckedEvents(last, lanes));
      assert AckedEvents(last, lanes) == lanes[last.lane].handled[..last.handled];
      LaterIsNewest(Watermark(init), last.maxTs, init, last, lanes);
    }
  }

  lemma {:induction false} LaterIsNewest(t: Option<nat>, u: Option<nat>, init: seq<Ack>, last: Ack, lanes: seq<Lane>)
    requires NewestAcked(t, init, lanes) && NewestIn(u, AckedEvents(last, lanes))
    ensures NewestAcked(Later(t, u), init + [last], lanes)
  {
    hide AckedEvents;
    var all, w := init + [last], Later(t, u);
    forall a | a in all
      ensures NoneAfter(AckedEvents(a, lanes), w)
    {
      if a in init {
        assert NoneAfter(AckedEvents(a, lanes), t);
      }
    }
    if w.Some? {
      if w == u {
        assert all[|init|] == last && last in all;
      } else {
        var a :| a in init && SomeAt(AckedEvents(a, lanes), t.value);
        assert a in all;
      }
    }
  }

  // --- acknowledgements stay true ---

  ghost predicate HandledGrow(before: seq<Lane>, after: seq<Lane>) {
    |before| == |after| && forall i :: 0 <= i < |before| ==> before[i].handled <= after[i].handled
  }

  lemma {:induction false} TrueGrows(acks: seq<Ack>, before: seq<Lane>, after: seq<Lane>)
    requires AcksTrue(acks, before) && HandledGrow(before, after)
    ensures AcksTrue(acks, after)
    ensures forall a :: a in acks ==> AckedEvents(a, after) == AckedEvents(a, before)
  {
    hide MaxTime;
    forall a | a in acks
      ensures AckTrue(a, after) && AckedEvents(a, after) == AckedEvents(a, before)
    {
      assert AckTrue(a, before);
      assert before[a.lane].handled[..a.handled] == after[a.lane].handled[..a.handled];
    }
  }

  lemma {:induction false} NewestGrows(t: Option<nat>, acks: seq<Ack>, before: seq<Lane>, after: seq<Lane>)
    requires NewestAcked(t, acks, before) && AcksTrue(acks, before) && HandledGrow(before, after)
    ensures NewestAcked(t, acks, after)
  {
    hide AckedEvents, AcksTrue, HandledGrow, NoneAfter, SomeAt;
    TrueGrows(acks, before, after);
    forall a | a in acks
      ensures NoneAfter(AckedEvents(a, after), t)
    {
      assert NoneAfter(AckedEvents(a, before), t);
    }
    if t.Some? {
      var a :| a in acks && SomeAt(AckedEvents(a, before), t.value);
      assert SomeAt(AckedEvents(a, after), t.value);
    }
  }

  /** A report's logs are exactly the matching events acknowledged by its lane. */
  ghost predicate LogsAre(s: Setup, logs: seq<seq<Arrival>>, a: Ack, lanes: seq<Lane>) {
    |logs| == |s.plans| && forall q :: 0 <= q < |s.plans| ==> EventsOf(logs[q]) == Matching(s.plans[q], AckedEvents(a, lanes))
  }

  ghost predicate ReportTrue(s: Setup, r: Report, acks: seq<Ack>, lanes: seq<Lane>) {
    forall a :: a in acks && a.lane == r.lane ==> LogsAre(s, r.logs, a, lanes)
  }

  ghost predicate PublicationTrue(s: Setup, p: Publication, lanes: seq<Lane>) {
    && |p.acked| == s.lanes && Distinct(AckLanes(p.acked), s.lanes) && AcksTrue(p.acked, lanes)
    && NewestAcked(p.upto, p.acked, lanes)
    && |p.logs| == s.lanes && forall a :: a in p.acked && a.lane < s.lanes ==> LogsAre(s, p.logs[a.lane], a, lanes)
  }

  /** Acknowledged earlier, a lane had handled no more. */
  ghost predicate NoMore(earlier: seq<Ack>, later: seq<Ack>) {
    forall a, b :: a in earlier && b in later && a.lane == b.lane ==> a.handled <= b.handled
  }

  predicate PastAcks(p: Phase) {
    p.Checkpointing? || p.Reporting?
  }

  ghost predicate Timed(s: Setup, w: World) {
    && (InCheckpoint(w) ==> AcksTrue(w.acks, w.lanes))
    && (InCheckpoint(w) ==> forall j :: 0 <= j < |w.published| ==> NoMore(w.published[j].acked, w.acks))
    && (PastAcks(w.phase) ==> |w.acks| == s.lanes && w.phase.watermark == Watermark(w.acks))
    && (PastAcks(w.phase) ==> forall j :: 0 <= j < |w.reports| && w.reports[j].ok ==>
          ReportTrue(s, w.reports[j], w.acks, w.lanes))
    && forall j :: 0 <= j < |w.published| ==> PublicationTrue(s, w.published[j], w.lanes)
  }

  lemma {:induction false} LogsGrown(s: Setup, logs: seq<seq<Arrival>>, a: Ack, before: seq<Lane>, after: seq<Lane>)
    requires LogsAre(s, logs, a, before) && AckedEvents(a, after) == AckedEvents(a, before)
    ensures LogsAre(s, logs, a, after)
  {
    hide EventsOf, Matching, AckedEvents;
  }

  lemma {:induction false} PublicationGrows(s: Setup, p: Publication, before: seq<Lane>, after: seq<Lane>)
    requires PublicationTrue(s, p, before) && HandledGrow(before, after)
    ensures PublicationTrue(s, p, after)
  {
    hide HandledGrow, NewestAcked, AckedEvents, LogsAre, AckTrue, AckLanes;
    TrueGrows(p.acked, before, after);
    NewestGrows(p.upto, p.acked, before, after);
    forall a | a in p.acked && a.lane < s.lanes
      ensures LogsAre(s, p.logs[a.lane], a, after)
    {
      LogsGrown(s, p.logs[a.lane], a, before, after);
    }
  }

  /** Lanes that only handle more events leave everything true. */
  lemma {:induction false} TimedGrows(s: Setup, w: World, lanes: seq<Lane>)
    requires Timed(s, w) && HandledGrow(w.lanes, lanes)
    ensures Timed(s, w.(lanes := lanes))
  {
    hide HandledGrow, PublicationTrue, AckedEvents, LogsAre, AckTrue, AcksTrue, NoMore, Watermark;
    forall j | 0 <= j < |w.published|
      ensures PublicationTrue(s, w.published[j], lanes)
    {
      PublicationGrows(s, w.published[j], w.lanes, lanes);
    }
    if InCheckpoint(w) {
      TrueGrows(w.acks, w.lanes, lanes);
    }
    if PastAcks(w.phase) {
      forall j | 0 <= j < |w.reports| && w.reports[j].ok
        ensures ReportTrue(s, w.reports[j], w.acks, lanes)
      {
        assert ReportTrue(s, w.reports[j], w.acks, w.lanes);
        forall a | a in w.acks && a.lane == w.reports[j].lane
          ensures LogsAre(s, w.reports[j].logs, a, lanes)
        {
          LogsGrown(s, w.reports[j].logs, a, w.lanes, lanes);
        }
      }
    }
  }

  // --- every step ---

  lemma {:induction false} StepHandles(s: Setup, w: World, i: nat)
    requires Shaped(s, w) && i < |w.lanes| && CanStep(w, w.lanes[i])
    ensures w.lanes[i].handled <= WorkerStep(s, w, i).lane.handled
  {
    hide ProcessAll, LogAll, CanProcessAll, BuildReport, Receives;
  }

  lemma {:induction false} CoordinateHandles(s: Setup, w: World)
    requires |w.lanes| == s.lanes && CanCoordinate(s, w)
    requires w.taken <= |w.drained| || !w.phase.Draining?
    requires w.taken <= |w.acks| || !w.phase.Acking?
    requires w.taken <= |w.reports| || !w.phase.Reporting?
    ensures HandledGrow(w.lanes, Coordinate(s, w).lanes)
  {
    hide LanesExact, UnalignedCurrent, TogetherAll, ReportedLogs, ByLane, Watermark;
  }

  lemma {:induction false} NextHandles(s: Setup, w: World, a: Action)
    requires Shaped(s, w) && Enabled(s, w, a)
    ensures HandledGrow(w.lanes, Next(s, w, a).lanes)
  {
    hide WorkerStep, Coordinate;
    if a.Work? {
      StepHandles(s, w, a.lane);
    } else if a.Continue? {
      CoordinateHandles(s, w);
    }
  }

  /** A lane acknowledges only before the watermark is taken. */
  lemma {:induction false} AckOnlyBefore(s: Setup, w: World, i: nat)
    requires Inv(s, w) && i < |w.lanes| && CanStep(w, w.lanes[i]) && WorkerStep(s, w, i).sent.SentAck?
    ensures !PastAcks(w.phase) && InCheckpoint(w) && AckTrue(WorkerStep(s, w, i).sent.ack, w.lanes)
    ensures WorkerStep(s, w, i).sent.ack.lane == i && WorkerStep(s, w, i).sent.ack.handled == |w.lanes[i].handled|
  {
    hide PublishedOk, ReportSays, ProcessAll, LogAll, CanProcessAll, BuildReport, EngineOk, AckLanes, ReportLanes, Distinct;
    var l := w.lanes[i];
    assert Stage(s, w, i) && LaneOk(s, l);
    LaneTimes(s, l);
    assert l.handled[..|l.handled|] == l.handled;
  }

  lemma {:induction false} ReportStep(s: Setup, w: World, i: nat)
    requires Shaped(s, w) && i < |w.lanes| && CanStep(w, w.lanes[i])
    requires WorkerStep(s, w, i).sent.SentReport? && WorkerStep(s, w, i).sent.report.ok
    ensures var l, r := w.lanes[i], WorkerStep(s, w, i).sent.report;
      && InCheckpoint(w) && l.pc.Paused? && l.controls != [] && l.controls[0].Checkpoint?
      && r.lane == i && r.logs == l.logs
  {
    hide ProcessAll, LogAll, CanProcessAll, AdvanceAll, FinishAll, EmittedAll, CurrentAll, RingsAll;
  }

  /** A lane answers only a checkpoint it was sent, with everything it acknowledged logged. */
  lemma {:induction false} ReportOnlyTold(s: Setup, w: World, i: nat)
    requires Inv(s, w) && i < |w.lanes| && CanStep(w, w.lanes[i])
    requires WorkerStep(s, w, i).sent.SentReport? && WorkerStep(s, w, i).sent.report.ok
    ensures PastAcks(w.phase) && ReportTrue(s, WorkerStep(s, w, i).sent.report, w.acks, w.lanes)
  {
    hide PublishedOk, ReportSays, WorkerStep, AckLanes, ReportLanes, Distinct, EventsOf, Matching, LaneOk, EngineOk, ChannelsOk;
    var l := w.lanes[i];
    ReportStep(s, w, i);
    assert Stage(s, w, i);
    assert InStep(w, l) && AckSays(w, i);
    SteadyLane(s, l);
    var r := WorkerStep(s, w, i).sent.report;
    forall a | a in w.acks && a.lane == r.lane
      ensures LogsAre(s, r.logs, a, w.lanes)
    {
      var j :| 0 <= j < |w.acks| && w.acks[j] == a;
      assert AckedEvents(a, w.lanes) == l.handled[..|l.handled|] == l.handled;
      LoggedHandled(s, l);
    }
  }

  lemma {:induction false} SteadyLane(s: Setup, l: Lane)
    requires LaneOk(s, l) && !l.spoiled
    ensures EngineOk(s, l)
  {
    hide EngineOk;
  }

  lemma {:induction false} LoggedHandled(s: Setup, l: Lane)
    requires EngineOk(s, l)
    ensures |l.logs| == |s.plans| && forall q :: 0 <= q < |s.plans| ==> EventsOf(l.logs[q]) == Matching(s.plans[q], l.handled)
  {
    hide QueryOk, EventsOf, Matching;
  }

  lemma {:induction false} AckTimed(s: Setup, w: World, ack: Ack)
    requires Timed(s, w) && InCheckpoint(w) && !PastAcks(w.phase)
    requires ack.lane < |w.lanes| && AckTrue(ack, w.lanes) && ack.handled == |w.lanes[ack.lane].handled|
    ensures Timed(s, w.(acks := w.acks + [ack]))
  {
    hide PublicationTrue, AckTrue;
    forall j | 0 <= j < |w.published|
      ensures NoMore(w.published[j].acked, w.acks + [ack])
    {
      assert PublicationTrue(s, w.published[j], w.lanes);
      NoMoreNow(s, w.published[j], w.lanes, w.acks, ack);
    }
  }

  lemma {:induction false} NoMoreNow(s: Setup, p: Publication, lanes: seq<Lane>, acks: seq<Ack>, ack: Ack)
    requires PublicationTrue(s, p, lanes) && NoMore(p.acked, acks)
    requires ack.lane < |lanes| && ack.handled == |lanes[ack.lane].handled|
    ensures NoMore(p.acked, acks + [ack])
  {
    hide NewestAcked, LogsAre, AckLanes, Distinct;
    forall a, b | a in p.acked && b in acks + [ack] && a.lane == b.lane
      ensures a.handled <= b.handled
    {
      assert AckTrue(a, lanes);
    }
  }

  lemma {:induction false} WorkTimed(s: Setup, w: World, i: nat)
    requires Inv(s, w) && Timed(s, w) && Enabled(s, w, Work(i))
    ensures Timed(s, Next(s, w, Work(i)))
  {
    hide Inv, Timed, WorkerStep, AckTrue, HandledGrow, ReportTrue;
    InvShape(s, w);
    var v, m := Next(s, w, Work(i)), WorkerStep(s, w, i);
    NextHandles(s, w, Work(i));
    TimedGrows(s, w, v.lanes);
    var u := w.(lanes := v.lanes);
    match m.sent
    case Nothing => assert v == u;
    case SentDrained(ack) => DrainedTimed(s, u, ack);
    case SentAck(ack) =>
      AckOnlyBefore(s, w, i);
      AckGrows(ack, w.lanes, v.lanes);
      AckKeeps(s, w, i);
      AckTimed(s, u, ack);
    case SentReport(report) =>
      if report.ok {
        ReportOnlyTold(s, w, i);
        AcksOf(s, w);
        ReportGrows(s, report, w.acks, w.lanes, v.lanes);
      }
      ReportTimed(s, u, report);
  }

  lemma {:induction false} AcksOf(s: Setup, w: World)
    requires Timed(s, w) && InCheckpoint(w)
    ensures AcksTrue(w.acks, w.lanes)
  {
  }

  lemma {:induction false} AckGrows(a: Ack, before: seq<Lane>, after: seq<Lane>)
    requires AckTrue(a, before) && HandledGrow(before, after)
    ensures AckTrue(a, after)
  {
    TrueGrows([a], before, after);
    assert a in [a];
  }

  lemma {:induction false} AckKeeps(s: Setup, w: World, i: nat)
    requires Shaped(s, w) && i < |w.lanes| && CanStep(w, w.lanes[i]) && WorkerStep(s, w, i).sent.SentAck?
    ensures WorkerStep(s, w, i).lane.handled == w.lanes[i].handled
  {
    hide ProcessAll, LogAll, CanProcessAll, BuildReport;
  }

  lemma {:induction false} DrainedTimed(s: Setup, w: World, ack: Ack)
    requires Timed(s, w)
    ensures Timed(s, w.(drained := w.drained + [ack]))
  {
    hide AcksTrue, NoMore, ReportTrue, PublicationTrue, Watermark;
  }

  lemma {:induction false} ReportGrows(s: Setup, r: Report, acks: seq<Ack>, before: seq<Lane>, after: seq<Lane>)
    requires ReportTrue(s, r, acks, before) && AcksTrue(acks, before) && HandledGrow(before, after)
    ensures ReportTrue(s, r, acks, after)
  {
    hide LogsAre, AckedEvents, AcksTrue, HandledGrow;
    TrueGrows(acks, before, after);
    forall a | a in acks && a.lane == r.lane
      ensures LogsAre(s, r.logs, a, after)
    {
      LogsGrown(s, r.logs, a, before, after);
    }
  }

  lemma {:induction false} ReportTimed(s: Setup, w: World, r: Report)
    requires Timed(s, w) && (r.ok && PastAcks(w.phase) ==> ReportTrue(s, r, w.acks, w.lanes))
    ensures Timed(s, w.(reports := w.reports + [r]))
  {
    hide AcksTrue, NoMore, ReportTrue, PublicationTrue, Watermark;
  }

  /** Every lane is among the acknowledgements, once they are all in. */
  lemma {:induction false} AckedLane(s: Setup, acks: seq<Ack>, i: nat) returns (a: Ack)
    requires Distinct(AckLanes(acks), s.lanes) && |acks| == s.lanes && i < s.lanes
    ensures a in acks && a.lane == i
  {
    AllReplied(AckLanes(acks), s.lanes);
    assert i in AckLanes(acks);
    var j :| 0 <= j < |acks| && AckLanes(acks)[j] == i;
    a := acks[j];
  }

  /** An event acknowledged earlier is among those acknowledged later. */
  lemma {:induction false} SeenAgain(a: Ack, b: Ack, lanes: seq<Lane>, t: Option<nat>, ts: nat)
    requires AckTrue(a, lanes) && AckTrue(b, lanes) && a.lane == b.lane && a.handled <= b.handled
    requires SomeAt(AckedEvents(a, lanes), ts) && NoneAfter(AckedEvents(b, lanes), t)
    ensures t.Some? && ts <= t.value
  {
    hide MaxTime;
    var e :| e in AckedEvents(a, lanes) && e.ts == ts;
    assert AckedEvents(a, lanes) == AckedEvents(b, lanes)[..a.handled];
    assert e in AckedEvents(b, lanes);
  }

  /** The newest time acknowledged does not go back from one checkpoint to the next. */
  lemma {:induction false} FloorBelow(s: Setup, w: World, p: Publication)
    requires PublicationTrue(s, p, w.lanes) && NoMore(p.acked, w.acks) && |w.lanes| == s.lanes
    requires Distinct(AckLanes(w.acks), s.lanes) && |w.acks| == s.lanes && AcksTrue(w.acks, w.lanes)
    ensures AtMost(p.upto, Watermark(w.acks))
  {
    hide LogsAre, AckLanes, Distinct, Watermark, SomeAt, NoneAfter, AckedEvents, MaxTime;
    WatermarkIsNewest(w.acks, w.lanes);
    if p.upto.Some? {
      var a :| a in p.acked && SomeAt(AckedEvents(a, w.lanes), p.upto.value);
      assert AckTrue(a, w.lanes);
      var b := AckedLane(s, w.acks, a.lane);
      assert AckTrue(b, w.lanes) && NoneAfter(AckedEvents(b, w.lanes), Watermark(w.acks));
      SeenAgain(a, b, w.lanes, Watermark(w.acks), p.upto.value);
    }
  }

  lemma {:induction false} LaterUp(a: Option<nat>, b: Option<nat>)
    requires AtMost(a, b)
    ensures Later(a, b) == b
  {
  }

  /** What publishing adds, as fields. */
  lemma {:induction false} PublishGives(s: Setup, w: World)
    requires Inv(s, w) && w.phase.Reporting? && w.taken == s.lanes
    ensures |w.reports| == s.lanes && LanesExact(s.lanes, ReportLanes(w.reports))
    ensures forall j :: 0 <= j < |w.reports| ==> w.reports[j].ok
    ensures var v, n := Next(s, w, Continue), |w.published|;
      && v.lanes == w.lanes && !InCheckpoint(v)
      && |v.published| == n + 1 && v.published[..n] == w.published
      && v.published[n].acked == w.acks && v.published[n].upto == Later(w.floor, w.phase.watermark)
      && v.published[n].logs == ReportedLogs(ByLane(w.reports, s.lanes))
  {
    hide ReportOk, LaneOk, UnalignedCurrent, Stage, AckLanes, ReportLanes, Distinct, PublishedOk, TogetherAll, Answered, ReportedLogs;
    AllReportsOk(s, w, w.phase.watermark);
    PublishInv(s, w, w.phase.watermark);
  }

  lemma {:induction false} FloorIsLast(s: Setup, w: World)
    requires Inv(s, w)
    ensures w.floor == if w.published == [] then None else w.published[|w.published| - 1].upto
    ensures InCheckpoint(w) ==> Distinct(AckLanes(w.acks), s.lanes) && |w.lanes| == s.lanes
  {
    hide LaneOk, Stage, PublicationOk, AckLanes, ReportLanes, Distinct;
  }

  lemma {:induction false} ReportedTrue(s: Setup, w: World, a: Ack)
    requires |w.reports| == s.lanes && LanesExact(s.lanes, ReportLanes(w.reports)) && a in w.acks && a.lane < s.lanes
    requires forall j :: 0 <= j < |w.reports| ==> w.reports[j].ok && ReportTrue(s, w.reports[j], w.acks, w.lanes)
    ensures LogsAre(s, ReportedLogs(ByLane(w.reports, s.lanes))[a.lane], a, w.lanes)
  {
    hide LogsAre, ReportLanes;
    var sorted := ByLane(w.reports, s.lanes);
    var j :| 0 <= j < |w.reports| && w.reports[j] == sorted[a.lane];
    assert ReportTrue(s, w.reports[j], w.acks, w.lanes);
  }

  lemma {:induction false} PublishTimed(s: Setup, w: World)
    requires Inv(s, w) && Timed(s, w) && w.phase.Reporting? && w.taken == s.lanes
    ensures Timed(s, Next(s, w, Continue))
  {
    hide Inv, Next, LogsAre, AckTrue, Watermark, NewestAcked, NoMore, Distinct, AckLanes, ReportLanes, LanesExact, ReportTrue,
      ByLane, ReportedLogs;
    var watermark, n := w.phase.watermark, |w.published|;
    InvShape(s, w);
    PublishGives(s, w);
    FloorIsLast(s, w);
    var v := Next(s, w, Continue);
    if n > 0 {
      assert PublicationTrue(s, w.published[n - 1], w.lanes);
      FloorBelow(s, w, w.published[n - 1]);
    }
    LaterUp(w.floor, watermark);
    WatermarkIsNewest(w.acks, w.lanes);
    forall a | a in w.acks && a.lane < s.lanes
      ensures LogsAre(s, v.published[n].logs[a.lane], a, w.lanes)
    {
      ReportedTrue(s, w, a);
    }
    assert PublicationTrue(s, v.published[n], w.lanes);
    forall j | 0 <= j < |v.published|
      ensures PublicationTrue(s, v.published[j], v.lanes)
    {
      if j < n {
        assert v.published[j] == w.published[j];
      }
    }
  }

  lemma {:induction false} AckingTimed(s: Setup, w: World)
    requires Inv(s, w) && Timed(s, w) && w.phase.Acking? && CanCoordinate(s, w)
    ensures Timed(s, Next(s, w, Continue))
  {
    hide LaneOk, Stage, PublishedOk, AcksTrue, PublicationTrue, NoMore, Watermark, Distinct, AckLanes, ReportLanes;
    if w.taken >= s.lanes {
      AckPrefix(w.acks, s.lanes);
    }
  }

  /** Steps that touch no acknowledgement, report or publication. */
  lemma {:induction false} QuietTimed(s: Setup, w: World, v: World)
    requires Timed(s, w) && HandledGrow(w.lanes, v.lanes) && v.published == w.published
    requires (v.acks == w.acks && v.reports == w.reports && (InCheckpoint(v) ==> InCheckpoint(w))) || v.acks == []
    requires PastAcks(v.phase) ==> PastAcks(w.phase) && v.phase.watermark == w.phase.watermark && v.acks == w.acks && v.reports == w.reports
    ensures Timed(s, v)
  {
    hide AcksTrue, PublicationTrue, NoMore, Watermark, HandledGrow, ReportTrue;
    TimedGrows(s, w, v.lanes);
    NoneAcked(v.lanes);
    forall j | 0 <= j < |w.published|
      ensures v.acks == [] ==> NoMore(w.published[j].acked, v.acks)
    {
      NoMoreOfNone(w.published[j].acked);
    }
  }

  lemma {:induction false} NoneAcked(lanes: seq<Lane>)
    ensures AcksTrue([], lanes)
  {
  }

  lemma {:induction false} NoMoreOfNone(acks: seq<Ack>)
    ensures NoMore(acks, [])
  {
  }

  lemma {:induction false} ContinueTimed(s: Setup, w: World)
    requires Inv(s, w) && Timed(s, w) && CanCoordinate(s, w)
    ensures Timed(s, Next(s, w, Continue))
  {
    hide LaneOk, Stage, PublishedOk, ChannelsOk, Timed, Inv, HandledGrow, Publish, ByLane;
    InvShape(s, w);
    TakenFits(s, w);
    NextHandles(s, w, Continue);
    if w.phase.Acking? {
      AckingTimed(s, w);
    } else if w.phase.Reporting? && w.taken >= s.lanes {
      PublishTimed(s, w);
    } else {
      QuietTimed(s, w, Next(s, w, Continue));
    }
  }

  lemma {:induction false} TakenFits(s: Setup, w: World)
    requires Inv(s, w)
    ensures w.phase.Reporting? ==> w.taken <= s.lanes
  {
    hide LaneOk, Stage, PublishedOk, AckLanes, ReportLanes, Distinct;
  }

  lemma {:induction false} NextTimed(s: Setup, w: World, a: Action)
    requires Inv(s, w) && Timed(s, w) && Enabled(s, w, a)
    ensures Timed(s, Next(s, w, a))
  {
    hide Inv, Timed, HandledGrow, Coordinate, WorkerStep;
    InvShape(s, w);
    NextHandles(s, w, a);
    match a
    case Work(i) => WorkTimed(s, w, i);
    case Continue => ContinueTimed(s, w);
    case _ => QuietTimed(s, w, Next(s, w, a));
  }

  lemma {:induction false} RunTimed(s: Setup, actions: seq<Action>, worlds: seq<World>, k: nat)
    requires IsRun(s, actions, worlds) && k < |worlds|
    ensures Timed(s, worlds[k])
  {
    hide Inv, Next, Enabled, Timed;
    if k == 0 {
      StartsTimed(s);
    } else {
      RunTimed(s, actions, worlds, k - 1);
      RunInv(s, actions, worlds, k - 1);
      assert Steps(s, worlds[k - 1], actions[k - 1], worlds[k - 1 + 1]);
      NextTimed(s, worlds[k - 1], actions[k - 1]);
    }
  }

  lemma {:induction false} StartsTimed(s: Setup)
    ensures Timed(s, Initial(s))
  {
  }

  // --- what this says of every run ---

  /** While a checkpoint is open with a watermark, every lane has acknowledged, and the
      watermark is the newest time among the events they acknowledged: absent only when no
      lane had handled any. */
  lemma {:induction false} WatermarkIsExact(s: Setup, actions: seq<Action>, worlds: seq<World>, k: nat, i: nat)
      returns (a: Ack)
    requires IsRun(s, actions, worlds) && k < |worlds| && PastAcks(worlds[k].phase) && i < s.lanes
    ensures var w := worlds[k];
      && a in w.acks && a.lane == i < |w.lanes| && a.handled <= |w.lanes[i].handled|
      && AckedEvents(a, w.lanes) == w.lanes[i].handled[..a.handled]
      && NewestAcked(w.phase.watermark, w.acks, w.lanes)
  {
    hide LaneOk, Stage, PublishedOk, AckLanes, ReportLanes, Distinct, IsRun, NewestAcked, Watermark;
    RunInv(s, actions, worlds, k);
    RunTimed(s, actions, worlds, k);
    var w := worlds[k];
    WatermarkIsNewest(w.acks, w.lanes);
    a := AckedLane(s, w.acks, i);
    assert AckTrue(a, w.lanes);
  }

  /** Every publication goes up to the newest time its lanes acknowledged, and counts of each
      lane exactly the matching events that lane acknowledged. */
  lemma {:induction false} PublishedUpTo(s: Setup, actions: seq<Action>, worlds: seq<World>, k: nat, j: nat, i: nat, q: nat)
      returns (a: Ack)
    requires IsRun(s, actions, worlds) && k < |worlds| && j < |worlds[k].published| && i < s.lanes && q < |s.plans|
    ensures var p, lanes := worlds[k].published[j], worlds[k].lanes;
      && NewestAcked(p.upto, p.acked, lanes)
      && a in p.acked && a.lane == i < |lanes| && a.handled <= |lanes[i].handled| && i < |p.logs| && q < |p.logs[i]|
      && EventsOf(p.logs[i][q]) == Matching(s.plans[q], lanes[i].handled[..a.handled])
  {
    hide Inv, AckLanes, Distinct, IsRun, NewestAcked, EventsOf, Matching;
    RunTimed(s, actions, worlds, k);
    var p := worlds[k].published[j];
    assert PublicationTrue(s, p, worlds[k].lanes);
    a := AckedLane(s, p.acked, i);
    assert AckTrue(a, worlds[k].lanes) && LogsAre(s, p.logs[i], a, worlds[k].lanes);
  }
}
