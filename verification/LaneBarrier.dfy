/** What holds of the whole system in every reachable state, and the promises of the
    checkpoint barrier that follow from it. */
module LaneBarrier {
  import opened Arithmetic
  import opened Options
  import opened WindowRing
  import opened QuerySpec
  import opened WindowMeaning
  import opened LaneEngine
  import opened LaneProtocol
  import opened LaneInvariants
  import opened Reports

  // --- where each lane is relative to the coordinator ---

  predicate Distinct(lanes: seq<nat>, n: nat) {
    && (forall j :: 0 <= j < |lanes| ==> lanes[j] < n)
    && forall j, k :: 0 <= j < k < |lanes| ==> lanes[j] != lanes[k]
  }

  predicate Acked(w: World, i: nat) {
    i in AckLanes(w.acks)
  }

  predicate Replied(w: World, i: nat) {
    i in ReportLanes(w.reports)
  }

  /** Not spoiled, and drained at the last completed checkpoint. */
  predicate InStep(w: World, l: Lane) {
    !l.spoiled && l.floor == w.floor
  }

  /** Outside a checkpoint: no command is queued. */
  predicate Calm(w: World, l: Lane) {
    InStep(w, l) && (l.pc.Failed? || (l.controls == [] && !l.pc.Paused? && !l.pc.Exited?))
  }

  /** Every acknowledgement of this lane states what its engine has taken in. */
  predicate AckSays(w: World, i: nat)
    requires i < |w.lanes|
  {
    forall j :: 0 <= j < |w.acks| && w.acks[j].lane == i ==>
      w.acks[j].maxTs == w.lanes[i].maxTs && w.acks[j].handled == |w.lanes[i].handled|
  }

  /** Acknowledged and paused, with nothing queued. */
  predicate Waiting(w: World, i: nat)
    requires i < |w.lanes|
  {
    var l := w.lanes[i];
    InStep(w, l) && l.controls == [] && l.pc == Paused(w.round) && Acked(w, i) && AckSays(w, i)
  }

  /** Sent a pause: failed, not there yet, or waiting. */
  predicate Called(w: World, i: nat)
    requires i < |w.lanes|
  {
    var l := w.lanes[i];
    || (InStep(w, l) && !Acked(w, i)
        && (l.pc.Failed? || (l.controls == [Pause(w.round)] && !l.pc.Paused? && !l.pc.Exited?)))
    || Waiting(w, i)
  }

  /** Sent its checkpoint, and still paused. */
  predicate Commanded(w: World, i: nat, watermark: Option<nat>)
    requires i < |w.lanes|
  {
    var l := w.lanes[i];
    && InStep(w, l) && l.controls == [Checkpoint(w.round, watermark, w.includeCurrent, w.finish)]
    && l.pc == Paused(w.round) && Acked(w, i) && AckSays(w, i) && AtMost(l.maxTs, watermark) && !Replied(w, i)
  }

  /** A report that was not refused is right, and its lane went on from there. */
  ghost predicate ReportSays(s: Setup, w: World, i: nat, watermark: Option<nat>)
    requires i < |w.lanes|
  {
    forall j :: 0 <= j < |w.reports| && w.reports[j].lane == i && w.reports[j].ok ==>
      && !w.lanes[i].spoiled && w.lanes[i].floor == Later(w.floor, watermark)
      && ReportOk(s, w.reports[j], w.floor, Later(w.floor, watermark), w.includeCurrent, w.finish)
      && (w.finish ==> w.reports[j].logs == w.lanes[i].logs)
  }

  ghost predicate Told(s: Setup, w: World, i: nat, watermark: Option<nat>)
    requires i < |w.lanes|
  {
    var l := w.lanes[i];
    || Commanded(w, i, watermark)
    || (Replied(w, i) && l.controls == [] && !l.pc.Paused? && (l.pc.Exited? <==> w.finish) && ReportSays(s, w, i, watermark))
  }

  /** The last publication counts everything this lane has logged. */
  predicate LastLogged(w: World, i: nat)
    requires i < |w.lanes|
  {
    && w.published != []
    && var p := w.published[|w.published| - 1];
      p.finish && i < |p.logs| && p.logs[i] == w.lanes[i].logs && !w.lanes[i].spoiled
  }

  ghost predicate Stage(s: Setup, w: World, i: nat)
    requires i < |w.lanes|
  {
    match w.phase
    case Ready => Calm(w, w.lanes[i])
    case Draining => Calm(w, w.lanes[i])
    case Pausing(k) => if i < k then Called(w, i) else Calm(w, w.lanes[i]) && !Acked(w, i)
    case Acking => Called(w, i)
    case Checkpointing(k, watermark) =>
      if i < k then Told(s, w, i, watermark) else Waiting(w, i) && AtMost(w.lanes[i].maxTs, watermark) && !Replied(w, i)
    case Reporting(watermark) => Told(s, w, i, watermark)
    case Finished => w.lanes[i].pc.Exited? && LastLogged(w, i)
    case Errored(_) => true
    case Dropped => true
  }

  predicate InCheckpoint(w: World) {
    w.phase.Pausing? || w.phase.Acking? || w.phase.Checkpointing? || w.phase.Reporting?
  }

  ghost predicate ChannelsOk(s: Setup, w: World) {
    && Distinct(AckLanes(w.drained), s.lanes)
    && (forall i :: 0 <= i < |w.lanes| ==> (i in AckLanes(w.drained) <==> !w.lanes[i].dataOpen))
    && (InCheckpoint(w) ==> Distinct(AckLanes(w.acks), s.lanes) && Distinct(ReportLanes(w.reports), s.lanes))
    && (w.phase.Pausing? || w.phase.Acking? ==> w.reports == [])
    && (w.phase.Draining? || w.phase.Acking? || w.phase.Reporting? ==> w.taken <= s.lanes)
    && (w.phase.Reporting? ==> forall j :: 0 <= j < w.taken && j < |w.reports| ==> w.reports[j].ok)
    && ((InCheckpoint(w) || w.phase.Finished?) && w.finish ==> forall i :: 0 <= i < |w.lanes| ==> !w.lanes[i].dataOpen)
    && (w.phase.Draining? || w.phase.Finished? ==> w.finish)
  }

  /** Until the coordinator is gone at most one command is queued, and never a shutdown. */
  predicate ShortQueues(w: World) {
    !w.phase.Dropped? ==> forall i :: 0 <= i < |w.lanes| ==>
      Dead(w.lanes[i]) || w.lanes[i].controls == [] || (|w.lanes[i].controls| == 1 && !w.lanes[i].controls[0].Shutdown?)
  }

  // --- publications ---

  /** What the first `n` lanes' logs put inside a window. */
  function CoveredBy(logs: seq<seq<seq<Arrival>>>, q: nat, key: Bounds, n: nat): multiset<FlowEvent>
    requires n <= |logs|
  {
    if n == 0 then multiset{}
    else CoveredBy(logs, q, key, n - 1) + (if q < |logs[n - 1]| then Covered(logs[n - 1][q], key.0, key.1) else multiset{})
  }

  /** For every query: only windows that ended in this checkpoint's span, and, merged by
      bounds, exactly what all lanes together had handled for each of them. */
  ghost predicate PublicationOk(s: Setup, p: Publication) {
    && AtMost(p.since, p.upto) && |p.windows| == |s.plans| && |p.logs| == s.lanes
    && (forall q :: 0 <= q < |s.plans| ==>
          Tells(s.plans[q], First(s, q), Stand(s, q, p.since), SpanEnd(s, q, p), p.windows[q], p.logs, q))
    && (p.current.Some? ==> |p.current.value| == |s.plans|)
    && (p.current.Some? ==> forall q :: 0 <= q < |s.plans| ==>
          Tells(s.plans[q], First(s, q), Stand(s, q, p.upto), Stand(s, q, p.upto) + s.plans[q].slide, p.current.value[q],
                p.logs, q))
  }

  function SpanEnd(s: Setup, q: nat, p: Publication): nat
    requires q < |s.plans|
  {
    Stand(s, q, p.upto) + (if p.finish then s.plans[q].slide else 0)
  }

  /** These windows end between `lo` and `hi`, and merged by bounds they hold what all
      lanes' logs put inside each window that ends there. */
  ghost predicate Tells(c: Plan, first: nat, lo: nat, hi: nat, windows: seq<Window>, logs: seq<seq<seq<Arrival>>>, q: nat) {
    && EndsBetween(c, first, lo, hi, windows)
    && forall key: Bounds ::
        EventsAt(windows, key) == if OnGrid(c, first, lo, hi, key) then CoveredBy(logs, q, key, |logs|) else multiset{}
  }

  /** The watermark up to which the first `j` checkpoints have published. */
  function UptoBefore(published: seq<Publication>, j: nat): Option<nat>
    requires j <= |published|
  {
    if j == 0 then None else published[j - 1].upto
  }

  ghost predicate PublishedOk(s: Setup, w: World) {
    && (forall j :: 0 <= j < |w.published| ==> PublicationOk(s, w.published[j]))
    && (forall j :: 0 <= j < |w.published| ==> w.published[j].since == UptoBefore(w.published, j))
    && w.floor == UptoBefore(w.published, |w.published|)
    && (forall j :: 0 <= j < |w.published| && w.published[j].finish ==>
          j == |w.published| - 1 && (w.phase.Finished? || w.phase.Dropped?))
  }

  ghost predicate Inv(s: Setup, w: World) {
    && Shaped(s, w)
    && (forall i :: 0 <= i < |w.lanes| ==> LaneOk(s, w.lanes[i]))
    && (forall i :: 0 <= i < |w.lanes| ==> Stage(s, w, i))
    && ChannelsOk(s, w) && ShortQueues(w) && PublishedOk(s, w)
  }

  // --- the first state ---

  lemma {:induction false} FirstLaneOk(s: Setup)
    ensures LaneOk(s, FirstLane(s))
  {
    hide QueryOk, BucketStart, Advance;
    var l := FirstLane(s);
    forall q | 0 <= q < |s.plans|
      ensures QueryOk(s.plans[q], First(s, q), Stand(s, q, None), Stand(s, q, Later(None, None)), l.engine[q], [])
    {
      BucketAligned(s.plans[q], s.initial);
      OpenOk(s.plans[q], BucketStart(s.plans[q], s.initial));
    }
  }

  lemma {:induction false} BucketAligned(c: Plan, ts: nat)
    ensures Aligned(c, BucketStart(c, ts))
  {
  }

  lemma {:induction false} InitialInv(s: Setup)
    ensures Inv(s, Initial(s))
  {
    hide LaneOk, FirstLane;
    FirstLaneOk(s);
    FirstLaneParts(s);
  }

  lemma {:induction false} FirstLaneParts(s: Setup)
    ensures var l := FirstLane(s);
      && |l.engine| == |s.plans| == |l.logs| && l.controls == [] && l.pc == Top && l.dataOpen && !l.spoiled && l.floor == None
  {
  }

  // --- a worker moves by itself ---

  /** The lane kept its queue of commands and was neither paused nor gone. */
  predicate MovedAlone(l: Lane, after: Lane) {
    && after.controls == l.controls && after.floor == l.floor && after.spoiled == l.spoiled
    && !l.pc.Paused? && !l.pc.Exited? && !l.pc.Failed? && !after.pc.Paused? && !after.pc.Exited?
  }

  /** A change that only the lane itself can see. */
  predicate Untouched(l: Lane, after: Lane) {
    && after.controls == l.controls && after.floor == l.floor && after.spoiled == l.spoiled && after.pc == l.pc
    && after.maxTs == l.maxTs && after.handled == l.handled && after.logs == l.logs
  }

  /** A lane's stage depends on that lane and what the coordinator and the channels say. */
  lemma {:induction false} OthersKeepStage(s: Setup, w: World, v: World, j: nat)
    requires j < |w.lanes| == |v.lanes| && Stage(s, w, j) && v.lanes[j] == w.lanes[j]
    requires v == w.(lanes := v.lanes, drained := v.drained)
    ensures Stage(s, v, j)
  {
    hide ReportOk, AckLanes, ReportLanes;
  }

  lemma {:induction false} AloneKeepsOwnStage(s: Setup, w: World, i: nat, after: Lane, v: World)
    requires i < |w.lanes| && Stage(s, w, i)
    requires v == w.(lanes := w.lanes[i := after], drained := v.drained)
    requires MovedAlone(w.lanes[i], after) || Untouched(w.lanes[i], after)
    ensures Stage(s, v, i)
  {
    hide ReportOk, AckLanes, ReportLanes;
    if w.phase.Finished? {
      assert Untouched(w.lanes[i], after);
    }
  }

  lemma {:induction false} AloneKeepsStage(s: Setup, w: World, i: nat, after: Lane, v: World, j: nat)
    requires i < |w.lanes| && j < |w.lanes| && Stage(s, w, j)
    requires v == w.(lanes := w.lanes[i := after], drained := v.drained)
    requires MovedAlone(w.lanes[i], after) || Untouched(w.lanes[i], after)
    ensures Stage(s, v, j)
  {
    hide Stage, MovedAlone, Untouched;
    if i == j {
      AloneKeepsOwnStage(s, w, i, after, v);
    } else {
      OthersKeepStage(s, w, v, j);
    }
  }

  lemma {:induction false} AloneInv(s: Setup, w: World, i: nat, after: Lane)
    requires Inv(s, w) && i < |w.lanes| && LaneOk(s, after) && after.dataOpen == w.lanes[i].dataOpen
    requires MovedAlone(w.lanes[i], after) || Untouched(w.lanes[i], after)
    ensures Inv(s, w.(lanes := w.lanes[i := after]))
  {
    hide Stage, PublicationOk, AckLanes, ReportLanes;
    var v := w.(lanes := w.lanes[i := after]);
    LaneShape(s, after);
    forall j | 0 <= j < |v.lanes|
      ensures Stage(s, v, j) && LaneOk(s, v.lanes[j])
    {
      AloneKeepsStage(s, w, i, after, v, j);
    }
    hide LaneOk;
  }

  lemma {:induction false} LaneShape(s: Setup, l: Lane)
    requires LaneOk(s, l)
    ensures |l.engine| == |s.plans| == |l.logs|
  {
  }

  // --- the environment ---

  lemma {:induction false} SendInv(s: Setup, w: World, i: nat, e: FlowEvent)
    requires Inv(s, w) && i < |w.lanes| && w.lanes[i].open_
    ensures Inv(s, Next(s, w, Send(i, e)))
  {
    hide Stage, PublishedOk, ChannelsOk, EngineOk, MaxTime, QueueOk;
    var l := w.lanes[i];
    var after := l.(queue := l.queue + [e], sent := l.sent + [e]);
    EngineSame(s, l, after);
    QueueSame(l, after);
    AloneInv(s, w, i, after);
  }

  lemma {:induction false} CloseInv(s: Setup, w: World, i: nat)
    requires Inv(s, w) && i < |w.lanes| && w.lanes[i].open_
    ensures Inv(s, Next(s, w, Close(i)))
  {
    hide Stage, PublishedOk, ChannelsOk, EngineOk, MaxTime, QueueOk;
    var l := w.lanes[i];
    var after := l.(open_ := false);
    EngineSame(s, l, after);
    QueueSame(l, after);
    AloneInv(s, w, i, after);
  }

  lemma {:induction false} EngineSame(s: Setup, l: Lane, after: Lane)
    requires after.engine == l.engine && after.logs == l.logs && after.handled == l.handled && after.maxTs == l.maxTs
    requires after.floor == l.floor
    ensures EngineOk(s, l) <==> EngineOk(s, after)
  {
    hide QueryOk, Matching, EventsOf, Stand, First;
  }

  lemma {:induction false} QueueSame(l: Lane, after: Lane)
    requires after.controls == l.controls && after.maxTs == l.maxTs && (after.pc.Paused? <==> l.pc.Paused?)
    ensures QueueOk(l) <==> QueueOk(after)
  {
  }

  // --- a worker's own steps ---

  /** Steps that touch neither commands nor channels. */
  predicate OwnStep(w: World, l: Lane) {
    match l.pc
    case Top => l.controls == [] && !w.phase.Dropped?
    case Receiving => l.queue != [] || l.open_
    case Handling(_, _) => true
    case Polling(_) => l.queue != [] || l.open_
    case _ => false
  }

  lemma {:induction false} OwnLaneOk(s: Setup, w: World, i: nat)
    requires Shaped(s, w) && i < |w.lanes| && LaneOk(s, w.lanes[i]) && OwnStep(w, w.lanes[i])
    ensures var m := WorkerStep(s, w, i);
      && m.sent == Nothing && LaneOk(s, m.lane) && m.lane.dataOpen == w.lanes[i].dataOpen && MovedAlone(w.lanes[i], m.lane)
  {
    hide EngineOk, MaxTime, QueueOk, ProcessAll, LogAll, CanProcessAll;
    var l := w.lanes[i];
    var m := WorkerStep(s, w, i);
    if l.pc.Handling? {
      HandleLaneOk(s, l);
    } else {
      EngineSame(s, l, m.lane);
      QueueSame(l, m.lane);
    }
  }

  lemma {:induction false} HandleLaneOk(s: Setup, l: Lane)
    requires LaneOk(s, l) && l.pc.Handling?
    ensures var after := HandleEvent(s, l, l.pc.event, l.pc.done);
      LaneOk(s, after) && after.dataOpen == l.dataOpen && MovedAlone(l, after)
  {
    hide EngineOk, MaxTime, ProcessAll, LogAll, CanProcessAll;
    var after := HandleEvent(s, l, l.pc.event, l.pc.done);
    if !l.spoiled {
      HandleKeepsEngine(s, l, l.pc.event, l.pc.done);
    }
    HandleShape(s, l, l.pc.event, l.pc.done);
    MaxTimeSnoc(l.handled, l.pc.event);
  }

  lemma {:induction false} HandleShape(s: Setup, l: Lane, e: FlowEvent, done: nat)
    requires |l.engine| == |s.plans| == |l.logs|
    ensures var after := HandleEvent(s, l, e, done);
      |after.engine| == |s.plans| == |after.logs|
  {
  }

  lemma {:induction false} OwnInv(s: Setup, w: World, i: nat)
    requires Inv(s, w) && i < |w.lanes| && OwnStep(w, w.lanes[i])
    ensures Inv(s, Next(s, w, Work(i)))
  {
    hide Stage, PublishedOk, ChannelsOk, WorkerStep, LaneOk;
    OwnLaneOk(s, w, i);
    AloneInv(s, w, i, WorkerStep(s, w, i).lane);
  }

  /** The data channel is closed and empty: the worker says so, once. */
  lemma {:induction false} DrainedInv(s: Setup, w: World, i: nat)
    requires Inv(s, w) && i < |w.lanes| && !w.phase.Dropped?
    requires w.lanes[i].pc.Receiving? || w.lanes[i].pc.Polling?
    requires w.lanes[i].queue == [] && !w.lanes[i].open_
    ensures Inv(s, Next(s, w, Work(i)))
  {
    hide Stage, PublishedOk, EngineOk, MaxTime, QueueOk, ReportLanes;
    var l := w.lanes[i];
    var after := l.(dataOpen := false, pc := Top);
    var v := Next(s, w, Work(i));
    assert LaneOk(s, l);
    EngineSame(s, l, after);
    QueueSame(l, after);
    assert LaneOk(s, after);
    DistinctSnoc(w.drained, Ack(i, l.maxTs, |l.handled|), s.lanes);
    forall j | 0 <= j < |v.lanes|
      ensures Stage(s, v, j) && LaneOk(s, v.lanes[j])
    {
      AloneKeepsStage(s, w, i, after, v, j);
    }
    hide LaneOk;
    assert PublishedOk(s, v) by { PublishedSame(s, w, v); }
  }

  lemma {:induction false} DistinctSnoc(acks: seq<Ack>, a: Ack, n: nat)
    requires Distinct(AckLanes(acks), n) && a.lane < n && a.lane !in AckLanes(acks)
    ensures Distinct(AckLanes(acks + [a]), n)
    ensures forall i :: i in AckLanes(acks + [a]) <==> i in AckLanes(acks) || i == a.lane
  {
    assert AckLanes(acks + [a]) == AckLanes(acks) + [a.lane];
  }

  lemma {:induction false} ReportSnoc(reports: seq<Report>, r: Report, n: nat)
    requires Distinct(ReportLanes(reports), n) && r.lane < n && r.lane !in ReportLanes(reports)
    ensures Distinct(ReportLanes(reports + [r]), n)
    ensures forall i :: i in ReportLanes(reports + [r]) <==> i in ReportLanes(reports) || i == r.lane
  {
    assert ReportLanes(reports + [r]) == ReportLanes(reports) + [r.lane];
  }

  lemma {:induction false} PublishedSame(s: Setup, w: World, v: World)
    requires PublishedOk(s, w) && v.published == w.published && v.floor == w.floor
    requires v.phase == w.phase || v.phase.Dropped? || !(w.phase.Finished? || w.phase.Dropped?)
    ensures PublishedOk(s, v)
  {
    hide PublicationOk;
  }

  // --- commands ---

  /** What acknowledging a pause does, and when it can happen. */
  lemma {:induction false} AckStep(s: Setup, w: World, i: nat)
    requires Inv(s, w) && i < |w.lanes| && (w.lanes[i].pc.Top? || w.lanes[i].pc.Idle?)
    requires w.lanes[i].controls != [] && w.lanes[i].controls[0].Pause? && Receives(w, w.lanes[i].controls[0].round)
    ensures var l := w.lanes[i];
      var after := l.(controls := [], pc := Paused(w.round));
      && l.controls == [Pause(w.round)] && !Acked(w, i) && InCheckpoint(w) && LaneOk(s, after)
      && Next(s, w, Work(i)) == w.(lanes := w.lanes[i := after], acks := w.acks + [Ack(i, l.maxTs, |l.handled|)])
  {
    hide PublishedOk, EngineOk, MaxTime, ReportSays, ReportOk, ChannelsOk, AckLanes, ReportLanes;
    var l := w.lanes[i];
    assert LaneOk(s, l) && Stage(s, w, i);
    assert Called(w, i) && l.controls[1..] == [];
    EngineSame(s, l, l.(controls := [], pc := Paused(w.round)));
  }

  /** Acknowledging a pause: the lane now waits. */
  lemma {:induction false} AckInv(s: Setup, w: World, i: nat)
    requires Inv(s, w) && i < |w.lanes| && (w.lanes[i].pc.Top? || w.lanes[i].pc.Idle?)
    requires w.lanes[i].controls != [] && w.lanes[i].controls[0].Pause? && Receives(w, w.lanes[i].controls[0].round)
    ensures Inv(s, Next(s, w, Work(i)))
  {
    hide PublishedOk, LaneOk, Stage, Next;
    AckStep(s, w, i);
    var l := w.lanes[i];
    var after := l.(controls := [], pc := Paused(w.round));
    var v := w.(lanes := w.lanes[i := after], acks := w.acks + [Ack(i, l.maxTs, |l.handled|)]);
    DistinctSnoc(w.acks, Ack(i, l.maxTs, |l.handled|), s.lanes);
    hide AckLanes, ReportLanes, Distinct;
    AckKeepsStages(s, w, i, after, v);
    PublishedSame(s, w, v);
  }

  lemma {:induction false} AckKeepsStages(s: Setup, w: World, i: nat, after: Lane, v: World)
    requires i < |w.lanes| && (forall j :: 0 <= j < |w.lanes| ==> Stage(s, w, j))
    requires w.phase.Pausing? || w.phase.Acking? || w.phase.Checkpointing? || w.phase.Reporting?
    requires var l := w.lanes[i];
      && l.controls == [Pause(w.round)] && (l.pc.Top? || l.pc.Idle?) && !Acked(w, i)
      && after == l.(controls := [], pc := Paused(w.round))
      && v == w.(lanes := w.lanes[i := after], acks := w.acks + [Ack(i, l.maxTs, |l.handled|)])
    ensures forall j :: 0 <= j < |v.lanes| ==> Stage(s, v, j)
  {
    hide ReportOk, ReportLanes;
    assert Stage(s, w, i);
    assert AckLanes(v.acks) == AckLanes(w.acks) + [i];
    assert forall k :: 0 <= k < |w.acks| ==> w.acks[k].lane in AckLanes(w.acks) by {
      forall k | 0 <= k < |w.acks|
        ensures w.acks[k].lane in AckLanes(w.acks)
      {
        assert AckLanes(w.acks)[k] == w.acks[k].lane;
      }
    }
    forall j | 0 <= j < |v.lanes|
      ensures Stage(s, v, j)
    {
      assert Stage(s, w, j);
    }
  }

  /** A lane that finds the coordinator gone, or a shutdown, leaves the protocol. */
  lemma {:induction false} LeaveInv(s: Setup, w: World, i: nat, after: Lane)
    requires Inv(s, w) && i < |w.lanes| && LaneOk(s, after) && after.dataOpen == w.lanes[i].dataOpen && Dead(after)
    requires w.phase.Errored? || w.phase.Dropped?
    ensures Inv(s, w.(lanes := w.lanes[i := after]))
  {
    hide PublishedOk, AckLanes, ReportLanes;
    var v := w.(lanes := w.lanes[i := after]);
    LaneShape(s, after);
    PublishedSame(s, w, v);
    hide LaneOk;
  }

  /** Reporting a checkpoint: the lane goes on from where the watermark put it. */
  lemma {:induction false} ReplyInv(s: Setup, w: World, i: nat)
    requires Inv(s, w) && i < |w.lanes| && w.lanes[i].pc.Paused?
    requires w.lanes[i].controls != [] && w.lanes[i].controls[0].Checkpoint? && Receives(w, w.lanes[i].controls[0].round)
    ensures Inv(s, Next(s, w, Work(i)))
  {
    hide PublishedOk, EngineOk, MaxTime, ReportSays, ReportOk, PublicationOk, BuildReport, Waiting;
    var l := w.lanes[i];
    assert LaneOk(s, l) && Stage(s, w, i);
    var watermark := CommandIs(s, w, i);
    var m := TakeCheckpoint(s, w, i, l);
    var v := Next(s, w, Work(i));
    CheckpointLaneOk(s, w, i, l, watermark, w.includeCurrent, w.finish);
    ReportSnoc(w.reports, m.sent.report, s.lanes);
    ReplyKeepsStages(s, w, i, v, watermark);
    PublishedSame(s, w, v);
    hide LaneOk, AckLanes, ReportLanes;
    ReplyKeepsRest(s, w, i, v);
  }

  lemma {:induction false} ReplyKeepsRest(s: Setup, w: World, i: nat, v: World)
    requires Inv(s, w) && i < |w.lanes| && i < |v.lanes| && Receives(w, w.round)
    requires v == w.(lanes := w.lanes[i := v.lanes[i]], reports := v.reports)
    requires |v.lanes[i].engine| == |s.plans| == |v.lanes[i].logs|
    requires v.lanes[i].dataOpen == w.lanes[i].dataOpen && v.lanes[i].controls == []
    requires Distinct(ReportLanes(v.reports), s.lanes) && w.reports <= v.reports
    requires w.phase.Checkpointing? || w.phase.Reporting?
    ensures Shaped(s, v) && ChannelsOk(s, v) && ShortQueues(v)
  {
    hide LaneOk, AckLanes, ReportLanes, Stage, PublishedOk, Distinct;
  }

  lemma {:induction false} CommandIs(s: Setup, w: World, i: nat) returns (watermark: Option<nat>)
    requires i < |w.lanes| && w.lanes[i].pc.Paused? && Stage(s, w, i)
    requires w.lanes[i].controls != [] && w.lanes[i].controls[0].Checkpoint? && Receives(w, w.lanes[i].controls[0].round)
    ensures Commanded(w, i, watermark)
    ensures w.phase == Reporting(watermark) || (w.phase.Checkpointing? && i < w.phase.next && w.phase.watermark == watermark)
  {
    hide ReportSays, AckLanes, ReportLanes;
    watermark := w.lanes[i].controls[0].watermark;
  }

  /** What taking a checkpoint does to the lane itself. */
  lemma {:induction false} CheckpointLaneOk(s: Setup, w: World, i: nat, l: Lane, watermark: Option<nat>,
                                            includeCurrent: bool, finish: bool)
    requires LaneOk(s, l) && l.pc.Paused? && l.controls != []
    requires l.controls[0].Checkpoint? && l.controls[0].watermark == watermark
    requires l.controls[0].includeCurrent == includeCurrent && l.controls[0].finish == finish
    ensures var m := TakeCheckpoint(s, w, i, l);
      var b := BuildReport(s.plans, i, l.engine, l.logs, watermark, includeCurrent, finish);
      && LaneOk(s, m.lane) && m.lane.dataOpen == l.dataOpen && m.lane.logs == l.logs
      && m.lane.controls == l.controls[1..] && b.report.lane == i
      && (b.report.ok && !l.spoiled ==>
            && !m.lane.spoiled && m.lane.floor == Later(l.floor, watermark) && b.report.logs == l.logs
            && ReportOk(s, b.report, l.floor, Later(l.floor, watermark), includeCurrent, finish))
  {
    hide EngineOk, MaxTime, ReportOk, BuildReport;
    var b := BuildReport(s.plans, i, l.engine, l.logs, watermark, includeCurrent, finish);
    BuiltParts(s, i, l, watermark, includeCurrent, finish);
    var m := TakeCheckpoint(s, w, i, l);
    if !l.spoiled {
      ReportIsRight(s, i, l, watermark, includeCurrent, finish);
      if b.report.ok {
        EngineSame(s, l.(engine := b.engine, floor := Later(l.floor, watermark)), m.lane);
      }
    }
  }

  lemma {:induction false} ReplyKeepsStages(s: Setup, w: World, i: nat, v: World, watermark: Option<nat>)
    requires i < |w.lanes| && |w.lanes[i].engine| == |s.plans| == |w.lanes[i].logs|
    requires (forall j :: 0 <= j < |w.lanes| ==> Stage(s, w, j)) && Commanded(w, i, watermark)
    requires w.phase == Reporting(watermark) || (w.phase.Checkpointing? && i < w.phase.next && w.phase.watermark == watermark)
    requires var m := TakeCheckpoint(s, w, i, w.lanes[i]);
      && v == Deliver(w, i, m) && m.sent.SentReport? && m.sent.report.lane == i
      && m.lane.logs == w.lanes[i].logs
      && (m.sent.report.ok ==>
            && !m.lane.spoiled && m.lane.floor == Later(w.lanes[i].floor, watermark) && m.sent.report.logs == m.lane.logs
            && ReportOk(s, m.sent.report, w.lanes[i].floor, Later(w.lanes[i].floor, watermark), w.includeCurrent, w.finish))
    ensures forall j :: 0 <= j < |v.lanes| ==> Stage(s, v, j)
  {
    hide ReportOk, AckLanes, BuildReport;
    var m := TakeCheckpoint(s, w, i, w.lanes[i]);
    assert ReportLanes(v.reports) == ReportLanes(w.reports) + [i];
    forall k | 0 <= k < |w.reports|
      ensures w.reports[k].lane in ReportLanes(w.reports)
    {
      assert ReportLanes(w.reports)[k] == w.reports[k].lane;
    }
    hide ReportLanes;
    forall j | 0 <= j < |v.lanes|
      ensures Stage(s, v, j)
    {
      assert Stage(s, w, j);
      if j == i {
        assert Told(s, v, i, watermark);
      }
    }
  }

  /** Commands and endings outside the replies above happen only once the coordinator has
      given up or is gone. */
  lemma {:induction false} EndingInv(s: Setup, w: World, i: nat)
    requires Inv(s, w) && Enabled(s, w, Work(i)) && (w.phase.Errored? || w.phase.Dropped?)
    requires !OwnStep(w, w.lanes[i])
    requires w.phase.Dropped? || !AboutToDrain(w.lanes[i])
    ensures Inv(s, Next(s, w, Work(i)))
  {
    hide PublishedOk, EngineOk, MaxTime, BuildReport, AckLanes, ReportLanes, Stage, ChannelsOk;
    var l := w.lanes[i];
    assert LaneOk(s, l) && QueueOk(l);
    var m := WorkerStep(s, w, i);
    if AboutToDrain(l) {
      DrainedGoneInv(s, w, i);
    } else {
      EndingLaneOk(s, w, i);
      LeaveInv(s, w, i, m.lane);
    }
  }

  /** The next step is the one that reports the data channel closed. */
  predicate AboutToDrain(l: Lane) {
    (l.pc.Receiving? || l.pc.Polling?) && l.queue == [] && !l.open_
  }

  lemma {:induction false} DrainedGoneStep(s: Setup, w: World, i: nat)
    requires Inv(s, w) && i < |w.lanes| && w.phase.Dropped? && AboutToDrain(w.lanes[i])
    ensures var l := w.lanes[i];
      var after := l.(dataOpen := false, pc := Failed(Disconnected));
      && l.dataOpen && LaneOk(s, after)
      && Next(s, w, Work(i)) == w.(lanes := w.lanes[i := after], drained := w.drained + [Ack(i, l.maxTs, |l.handled|)])
  {
    hide PublishedOk, EngineOk, MaxTime, QueueOk, ReportLanes, AckLanes, ChannelsOk;
    var l := w.lanes[i];
    assert LaneOk(s, l);
    EngineSame(s, l, l.(dataOpen := false, pc := Failed(Disconnected)));
  }

  lemma {:induction false} DrainedGoneInv(s: Setup, w: World, i: nat)
    requires Inv(s, w) && i < |w.lanes| && w.phase.Dropped? && AboutToDrain(w.lanes[i])
    ensures Inv(s, Next(s, w, Work(i)))
  {
    hide PublishedOk, LaneOk, Next;
    DrainedGoneStep(s, w, i);
    var l := w.lanes[i];
    var v := w.(lanes := w.lanes[i := l.(dataOpen := false, pc := Failed(Disconnected))],
                drained := w.drained + [Ack(i, l.maxTs, |l.handled|)]);
    DistinctSnoc(w.drained, Ack(i, l.maxTs, |l.handled|), s.lanes);
    hide AckLanes, ReportLanes, Distinct;
    PublishedSame(s, w, v);
  }

  lemma {:induction false} EndingLaneOk(s: Setup, w: World, i: nat)
    requires i < |w.lanes| && CanStep(w, w.lanes[i]) && LaneOk(s, w.lanes[i])
    requires (w.phase.Errored? || w.phase.Dropped?) && !OwnStep(w, w.lanes[i]) && !AboutToDrain(w.lanes[i])
    ensures var m := WorkerStep(s, w, i);
      m.sent == Nothing && LaneOk(s, m.lane) && m.lane.dataOpen == w.lanes[i].dataOpen && Dead(m.lane)
  {
    hide EngineOk, MaxTime, BuildReport, ReportOk;
    var l := w.lanes[i];
    var m := WorkerStep(s, w, i);
    if l.pc.Paused? && l.controls != [] && l.controls[0].Checkpoint? {
      var c := l.controls[0];
      CheckpointLaneOk(s, w, i, l, c.watermark, c.includeCurrent, c.finish);
    } else {
      EngineSame(s, l, m.lane);
    }
  }

  lemma {:induction false} WorkInv(s: Setup, w: World, i: nat)
    requires Inv(s, w) && Enabled(s, w, Work(i))
    ensures Inv(s, Next(s, w, Work(i)))
  {
    hide PublishedOk, ChannelsOk, EngineOk, MaxTime, WorkerStep, ReportSays, AckLanes, ReportLanes;
    var l := w.lanes[i];
    assert LaneOk(s, l) && Stage(s, w, i);
    hide Next;
    if OwnStep(w, l) {
      OwnInv(s, w, i);
    } else if w.phase.Errored? || w.phase.Dropped? {
      if w.phase.Dropped? || !AboutToDrain(l) {
        EndingInv(s, w, i);
      } else {
        DrainedInv(s, w, i);
      }
    } else if AboutToDrain(l) {
      DrainedInv(s, w, i);
    } else if l.pc.Paused? {
      ReplyInv(s, w, i);
    } else {
      AckInv(s, w, i);
    }
  }

  // --- the coordinator ---

  lemma {:induction false} StartInv(s: Setup, w: World, finish: bool, includeCurrent: bool)
    requires Inv(s, w) && w.phase.Ready?
    ensures Inv(s, Next(s, w, Start(finish, includeCurrent)))
  {
    hide LaneOk, PublicationOk;
    var v := Next(s, w, Start(finish, includeCurrent));
    forall i | 0 <= i < |w.lanes|
      ensures Stage(s, v, i)
    {
      assert Stage(s, w, i);
    }
    PublishedSame(s, w, v);
  }

  lemma {:induction false} GiveUpInv(s: Setup, w: World)
    requires Inv(s, w) && Enabled(s, w, GiveUp)
    ensures Inv(s, Next(s, w, GiveUp))
  {
    ErroredInv(s, w, WorkerGone);
  }

  lemma {:induction false} ErroredInv(s: Setup, w: World, problem: Problem)
    requires Inv(s, w) && !w.phase.Finished? && !w.phase.Dropped?
    ensures Inv(s, w.(phase := Errored(problem)))
  {
    hide LaneOk, AckLanes, ReportLanes;
    PublishedSame(s, w, w.(phase := Errored(problem)));
    hide PublishedOk;
  }

  lemma {:induction false} DropInv(s: Setup, w: World)
    requires Inv(s, w) && Enabled(s, w, Drop)
    ensures Inv(s, Next(s, w, Drop))
  {
    hide EngineOk, MaxTime, AckLanes, ReportLanes;
    var v := Next(s, w, Drop);
    forall i | 0 <= i < |v.lanes|
      ensures LaneOk(s, v.lanes[i]) && v.lanes[i].dataOpen == w.lanes[i].dataOpen
    {
      assert LaneOk(s, w.lanes[i]) && Stage(s, w, i);
      EngineSame(s, w.lanes[i], v.lanes[i]);
    }
    PublishedSame(s, w, v);
    hide LaneOk, PublishedOk;
  }

  ghost function Seen(lanes: seq<nat>): set<nat> {
    set i | i in lanes
  }

  lemma {:induction false} DistinctSize(lanes: seq<nat>, n: nat)
    requires Distinct(lanes, n)
    ensures |Seen(lanes)| == |lanes| && forall i :: i in Seen(lanes) ==> i < n
  {
    if lanes != [] {
      var init, last := lanes[..|lanes| - 1], lanes[|lanes| - 1];
      assert forall j :: 0 <= j < |init| ==> init[j] == lanes[j];
      DistinctSize(init, n);
      assert lanes == init + [last];
      assert last !in init;
      assert Seen(lanes) == Seen(init) + {last};
      assert lanes[|lanes| - 1] < n;
    }
  }

  lemma {:induction false} BelowSize(s: set<nat>, n: nat)
    requires forall i :: i in s ==> i < n
    ensures |s| <= n && (|s| == n ==> forall i :: 0 <= i < n ==> i in s)
  {
    if n > 0 {
      BelowSize(s - {n - 1}, n - 1);
      if n - 1 in s {
        assert |s - {n - 1}| == |s| - 1;
      } else {
        assert s - {n - 1} == s;
      }
    } else {
      assert s == {};
    }
  }

  /** Distinct replies, one per lane: every lane has replied, and there are no more. */
  lemma {:induction false} AllReplied(lanes: seq<nat>, n: nat)
    requires Distinct(lanes, n)
    ensures |lanes| <= n
    ensures |lanes| >= n ==> forall i :: 0 <= i < n ==> i in lanes
  {
    DistinctSize(lanes, n);
    BelowSize(Seen(lanes), n);
    if |lanes| >= n {
      forall i: nat | i < n
        ensures i in lanes
      {
        assert i in Seen(lanes);
      }
    }
  }

  lemma {:induction false} TakenAll(lanes: seq<nat>, n: nat)
    requires Distinct(lanes, n) && |lanes| >= n
    ensures |lanes| == n && lanes[..n] == lanes && LanesExact(n, lanes)
  {
    AllReplied(lanes, n);
  }

  lemma {:induction false} AckPrefix(acks: seq<Ack>, n: nat)
    requires Distinct(AckLanes(acks), n) && |acks| >= n
    ensures acks[..n] == acks && LanesExact(n, AckLanes(acks)) && forall i :: 0 <= i < n ==> i in AckLanes(acks)
  {
    TakenAll(AckLanes(acks), n);
  }

  lemma {:induction false} ReportPrefix(reports: seq<Report>, n: nat)
    requires Distinct(ReportLanes(reports), n) && |reports| >= n
    ensures reports[..n] == reports && |reports| == n && LanesExact(n, ReportLanes(reports))
    ensures forall i :: 0 <= i < n ==> i in ReportLanes(reports)
  {
    TakenAll(ReportLanes(reports), n);
  }

  lemma {:induction false} DrainStepInv(s: Setup, w: World)
    requires Inv(s, w) && w.phase.Draining? && CanCoordinate(s, w)
    ensures Inv(s, Next(s, w, Continue))
  {
    hide LaneOk, PublishedOk, AckLanes, ReportLanes, Distinct;
    var v := Next(s, w, Continue);
    if w.taken >= s.lanes {
      AckPrefix(w.drained, s.lanes);
      assert w.taken == s.lanes;
      PauseKeeps(s, w);
    } else {
      forall i | 0 <= i < |w.lanes|
        ensures Stage(s, v, i)
      {
        assert Stage(s, w, i);
      }
    }
    PublishedSame(s, w, v);
  }

  lemma {:induction false} PauseKeeps(s: Setup, w: World)
    requires Inv(s, w) && (w.phase.Draining? || w.phase.Ready?)
    requires w.finish ==> forall i :: 0 <= i < |w.lanes| ==> !w.lanes[i].dataOpen
    ensures Inv(s, StartPause(w))
  {
    hide LaneOk, PublishedOk;
    var v := StartPause(w);
    forall i | 0 <= i < |w.lanes|
      ensures Stage(s, v, i)
    {
      assert Stage(s, w, i);
    }
    PublishedSame(s, w, v);
  }

  lemma {:induction false} PauseKeepsStage(s: Setup, w: World, v: World, i: nat)
    requires w.phase.Pausing? && i < |w.lanes| && Stage(s, w, i) && |w.lanes| == s.lanes
    requires w.phase.next < s.lanes ==> !Dead(w.lanes[w.phase.next])
    requires v == if w.phase.next >= s.lanes then w.(phase := Acking, taken := 0)
      else Command(w, w.phase.next, Pause(w.round)).(phase := Pausing(w.phase.next + 1))
    ensures Stage(s, v, i)
  {
    hide AckLanes, ReportLanes;
  }

  lemma {:induction false} PauseLaneOk(s: Setup, w: World, i: nat)
    requires i < |w.lanes| && LaneOk(s, w.lanes[i]) && w.phase.Pausing? && w.phase.next == i && Stage(s, w, i)
    ensures LaneOk(s, Command(w, i, Pause(w.round)).lanes[i])
  {
    hide EngineOk, MaxTime, AckLanes, ReportLanes;
    EngineSame(s, w.lanes[i], Command(w, i, Pause(w.round)).lanes[i]);
  }

  lemma {:induction false} PauseStepInv(s: Setup, w: World)
    requires Inv(s, w) && w.phase.Pausing?
    ensures Inv(s, Next(s, w, Continue))
  {
    hide PublishedOk, AckLanes, ReportLanes, LaneOk, Distinct;
    var k, v := w.phase.next, Next(s, w, Continue);
    if k < s.lanes && Dead(w.lanes[k]) {
      ErroredInv(s, w, WorkerGone);
    } else {
      forall i | 0 <= i < |w.lanes|
        ensures Stage(s, v, i) && LaneOk(s, v.lanes[i])
      {
        PauseKeepsStage(s, w, v, i);
        if i == k {
          PauseLaneOk(s, w, i);
        }
      }
      PublishedSame(s, w, v);
      if k < s.lanes {
        assert Stage(s, w, k) && w.lanes[k].controls == [];
      }
      hide Stage;
    }
  }

  lemma {:induction false} WatermarkCovers(acks: seq<Ack>, j: nat)
    requires j < |acks|
    ensures AtMost(acks[j].maxTs, Watermark(acks))
  {
    if j < |acks| - 1 {
      WatermarkCovers(acks[..|acks| - 1], j);
    }
  }

  lemma {:induction false} AckStepInv(s: Setup, w: World)
    requires Inv(s, w) && w.phase.Acking? && CanCoordinate(s, w)
    ensures Inv(s, Next(s, w, Continue))
  {
    hide LaneOk, PublishedOk, ReportLanes, Distinct, Watermark;
    var v := Next(s, w, Continue);
    if w.taken >= s.lanes {
      AckPrefix(w.acks, s.lanes);
      assert w.taken == s.lanes;
      forall i | 0 <= i < |w.lanes|
        ensures Stage(s, v, i)
      {
        assert Stage(s, w, i) && Acked(w, i);
        var j :| 0 <= j < |w.acks| && AckLanes(w.acks)[j] == i;
        WatermarkCovers(w.acks, j);
        NoReports(w, i);
      }
    } else {
      forall i | 0 <= i < |w.lanes|
        ensures Stage(s, v, i)
      {
        assert Stage(s, w, i);
      }
    }
    PublishedSame(s, w, v);
  }

  lemma {:induction false} NoReports(w: World, i: nat)
    requires w.reports == []
    ensures !Replied(w, i)
  {
  }

  lemma {:induction false} CommandKeepsStage(s: Setup, w: World, v: World, i: nat)
    requires w.phase.Checkpointing? && i < |w.lanes| && Stage(s, w, i) && |w.lanes| == s.lanes
    requires w.phase.next < s.lanes ==> !Dead(w.lanes[w.phase.next])
    requires v == if w.phase.next >= s.lanes then w.(phase := Reporting(w.phase.watermark), taken := 0)
      else Command(w, w.phase.next, Checkpoint(w.round, w.phase.watermark, w.includeCurrent, w.finish)).(
        phase := Checkpointing(w.phase.next + 1, w.phase.watermark))
    ensures Stage(s, v, i)
  {
    hide AckLanes, ReportLanes, ReportOk;
    if i == w.phase.next {
      assert Commanded(v, i, w.phase.watermark);
    }
  }

  lemma {:induction false} CommandLaneOk(s: Setup, w: World, i: nat)
    requires i < |w.lanes| && LaneOk(s, w.lanes[i]) && w.phase.Checkpointing? && w.phase.next == i && Stage(s, w, i)
    ensures LaneOk(s, Command(w, i, Checkpoint(w.round, w.phase.watermark, w.includeCurrent, w.finish)).lanes[i])
  {
    hide EngineOk, MaxTime, AckLanes, ReportLanes;
    EngineSame(s, w.lanes[i], Command(w, i, Checkpoint(w.round, w.phase.watermark, w.includeCurrent, w.finish)).lanes[i]);
  }

  lemma {:induction false} CheckpointStepInv(s: Setup, w: World)
    requires Inv(s, w) && w.phase.Checkpointing?
    ensures Inv(s, Next(s, w, Continue))
  {
    hide PublishedOk, AckLanes, ReportLanes, LaneOk, Distinct, ReportOk;
    var k, v := w.phase.next, Next(s, w, Continue);
    if k < s.lanes && Dead(w.lanes[k]) {
      ErroredInv(s, w, WorkerGone);
    } else {
      forall i | 0 <= i < |w.lanes|
        ensures Stage(s, v, i) && LaneOk(s, v.lanes[i])
      {
        CommandKeepsStage(s, w, v, i);
        if i == k {
          CommandLaneOk(s, w, i);
        }
      }
      PublishedSame(s, w, v);
      if k < s.lanes {
        assert Stage(s, w, k) && w.lanes[k].controls == [];
      }
      hide Stage;
    }
  }

  // --- publishing ---

  predicate Answered(w: World, i: nat, watermark: Option<nat>)
    requires i < |w.lanes|
  {
    var l := w.lanes[i];
    l.controls == [] && !l.pc.Paused? && (l.pc.Exited? <==> w.finish) && !l.spoiled && l.floor == Later(w.floor, watermark)
  }

  lemma {:induction false} AllReportsOk(s: Setup, w: World, watermark: Option<nat>)
    requires Inv(s, w) && w.phase == Reporting(watermark) && w.taken == s.lanes
    ensures |w.reports| == s.lanes && w.reports[..w.taken] == w.reports && LanesExact(s.lanes, ReportLanes(w.reports))
    ensures forall j :: 0 <= j < |w.reports| ==>
      ReportOk(s, w.reports[j], w.floor, Later(w.floor, watermark), w.includeCurrent, w.finish)
    ensures forall i :: 0 <= i < |w.lanes| ==> Answered(w, i, watermark)
    ensures w.finish ==> forall i :: 0 <= i < |w.lanes| ==> ByLane(w.reports, s.lanes)[i].logs == w.lanes[i].logs
  {
    hide LaneOk, PublishedOk, AckLanes, ReportOk, Distinct;
    ReportPrefix(w.reports, s.lanes);
    forall i | 0 <= i < |w.lanes|
      ensures Answered(w, i, watermark)
      ensures ReportSays(s, w, i, watermark)
    {
      assert Stage(s, w, i) && Replied(w, i);
      var j :| 0 <= j < |w.reports| && ReportLanes(w.reports)[j] == i;
      assert w.reports[j].lane == i && w.reports[j].ok;
    }
    forall j | 0 <= j < |w.reports|
      ensures ReportOk(s, w.reports[j], w.floor, Later(w.floor, watermark), w.includeCurrent, w.finish)
    {
      ReportLaneKnown(w.reports, j, s.lanes);
      assert ReportSays(s, w, w.reports[j].lane, watermark);
    }
    forall i | 0 <= i < |w.lanes| && w.finish
      ensures ByLane(w.reports, s.lanes)[i].logs == w.lanes[i].logs
    {
      var r := ByLane(w.reports, s.lanes)[i];
      var j :| 0 <= j < |w.reports| && w.reports[j] == r;
      assert ReportSays(s, w, i, watermark);
    }
  }

  lemma {:induction false} ReportLaneKnown(reports: seq<Report>, j: nat, n: nat)
    requires Distinct(ReportLanes(reports), n) && j < |reports|
    ensures reports[j].lane < n
  {
    assert ReportLanes(reports)[j] < n;
  }

  /** All lanes report the same open window: the unaligned-window error cannot happen. */
  lemma {:induction false} CurrentsAgree(s: Setup, reports: seq<Report>, since: Option<nat>, upto: Option<nat>,
                                         includeCurrent: bool, finish: bool)
    requires forall j :: 0 <= j < |reports| ==> ReportOk(s, reports[j], since, upto, includeCurrent, finish)
    ensures !UnalignedCurrent(reports)
  {
    hide WindowsOk, OpenWindow, RingOk;
  }

  /** Merged by bounds, the reports say what all lanes' logs put inside each window. */
  lemma {:induction false} TogetherOk(c: Plan, first: nat, lo: nat, hi: nat, reports: seq<Report>, kind: Kind, q: nat)
    requires forall j :: 0 <= j < |reports| ==> ReportTells(c, first, lo, hi, reports[j], kind, q)
    ensures Tells(c, first, lo, hi, Together(reports, kind, q), ReportedLogs(reports), q)
    decreases |reports|
  {
    hide Covered, OnGrid, EventsAt, ReportedLogs, ReportTells, WindowsIn;
    if reports != [] {
      var init, last := reports[..|reports| - 1], reports[|reports| - 1];
      TogetherOk(c, first, lo, hi, init, kind, q);
      ReportParts(c, first, lo, hi, last, kind, q);
      var before, added := Together(init, kind, q), WindowsIn(last, kind, q);
      assert Together(reports, kind, q) == before + added;
      forall key: Bounds
        ensures EventsAt(before + added, key)
             == if OnGrid(c, first, lo, hi, key) then CoveredBy(ReportedLogs(reports), q, key, |reports|) else multiset{}
      {
        EventsAtConcat(before, added, key);
        CoveredPrefix(reports, q, key, |init|);
      }
    } else {
      NoEvents();
    }
  }

  ghost predicate ReportTells(c: Plan, first: nat, lo: nat, hi: nat, r: Report, kind: Kind, q: nat) {
    q < |r.logs| && WindowsOk(c, first, lo, hi, WindowsIn(r, kind, q), r.logs[q])
  }

  lemma {:induction false} ReportParts(c: Plan, first: nat, lo: nat, hi: nat, r: Report, kind: Kind, q: nat)
    requires ReportTells(c, first, lo, hi, r, kind, q)
    ensures q < |r.logs| && EndsBetween(c, first, lo, hi, WindowsIn(r, kind, q))
    ensures forall key: Bounds ::
      EventsAt(WindowsIn(r, kind, q), key)
        == if OnGrid(c, first, lo, hi, key) then Covered(r.logs[q], key.0, key.1) else multiset{}
  {
    hide EndsBetween, OnGrid, EventsAt, Covered, WindowsIn;
  }

  lemma {:induction false} ReportWindows(s: Setup, r: Report, since: Option<nat>, upto: Option<nat>,
                                         includeCurrent: bool, finish: bool, q: nat)
    requires ReportOk(s, r, since, upto, includeCurrent, finish) && q < |s.plans|
    ensures ReportTells(s.plans[q], First(s, q), Stand(s, q, since),
                        Stand(s, q, upto) + (if finish then s.plans[q].slide else 0), r, Completed, q)
    ensures includeCurrent ==>
      ReportTells(s.plans[q], First(s, q), Stand(s, q, upto), Stand(s, q, upto) + s.plans[q].slide, r, Open, q)
  {
    hide WindowsOk, Stand, First, RingOk, CurrentOk;
    if includeCurrent {
      assert CurrentOk(s, q, upto, r.current[q], r.logs[q]);
      CurrentTells(s, q, upto, r.current[q], r.logs[q]);
    }
  }

  /** The open window is the one that the next slide would close. */
  lemma {:induction false} CurrentTells(s: Setup, q: nat, upto: Option<nat>, current: Option<Window>, log: seq<Arrival>)
    requires q < |s.plans| && CurrentOk(s, q, upto, current, log)
    ensures current.Some?
    ensures WindowsOk(s.plans[q], First(s, q), Stand(s, q, upto), Stand(s, q, upto) + s.plans[q].slide, [current.value], log)
  {
    hide First, WindowStart, Covered, EndsBetween, ReportsLog, BucketStart, Reached;
    StandAligned(s, q, upto);
    TrailingReports(s.plans[q], First(s, q), Stand(s, q, upto), current.value, log);
  }

  lemma {:induction false} StandAligned(s: Setup, q: nat, t: Option<nat>)
    requires q < |s.plans|
    ensures Aligned(s.plans[q], Stand(s, q, t)) && Aligned(s.plans[q], Stand(s, q, t) + s.plans[q].slide)
  {
    hide BucketStart, Reached;
    AlignedStep(Stand(s, q, t), s.plans[q].slide);
  }

  lemma {:induction false} NoEvents()
    ensures forall key: Bounds :: EventsAt([], key) == multiset{}
  {
  }

  lemma {:induction false} CoveredPrefix(reports: seq<Report>, q: nat, key: Bounds, n: nat)
    requires n < |reports|
    ensures CoveredBy(ReportedLogs(reports), q, key, n) == CoveredBy(ReportedLogs(reports[..|reports| - 1]), q, key, n)
    ensures ReportedLogs(reports)[|reports| - 1] == reports[|reports| - 1].logs
    decreases n
  {
    hide Covered;
    if n > 0 {
      CoveredPrefix(reports, q, key, n - 1);
      assert ReportedLogs(reports)[n - 1] == ReportedLogs(reports[..|reports| - 1])[n - 1];
    }
  }

  lemma {:induction false} LaterIsLater(a: Option<nat>, b: Option<nat>)
    ensures AtMost(a, Later(a, b))
  {
  }

  lemma {:induction false} NewPublicationOk(s: Setup, w: World, watermark: Option<nat>, reports: seq<Report>)
    requires |reports| == s.lanes
    requires forall j :: 0 <= j < |reports| ==>
      ReportOk(s, reports[j], w.floor, Later(w.floor, watermark), w.includeCurrent, w.finish)
    ensures !UnalignedCurrent(reports)
    ensures var v := Publish(s, w, watermark, reports);
      && v.published == w.published + [v.published[|w.published|]]
      && PublicationOk(s, v.published[|w.published|])
      && v.published[|w.published|].since == w.floor && v.published[|w.published|].upto == v.floor == Later(w.floor, watermark)
      && v.published[|w.published|].finish == w.finish
      && v.published[|w.published|].logs == ReportedLogs(reports)
      && v == w.(published := v.published, floor := v.floor, phase := if w.finish then Finished else Ready)
  {
    hide ReportOk, Together, Tells, ReportTells, Stand, First, UnalignedCurrent, ReportedLogs;
    var upto := Later(w.floor, watermark);
    CurrentsAgree(s, reports, w.floor, upto, w.includeCurrent, w.finish);
    LaterIsLater(w.floor, watermark);
    var v := Publish(s, w, watermark, reports);
    var p := v.published[|w.published|];
    forall q | 0 <= q < |s.plans|
      ensures Tells(s.plans[q], First(s, q), Stand(s, q, p.since), SpanEnd(s, q, p), p.windows[q], p.logs, q)
      ensures p.current.Some? ==>
        Tells(s.plans[q], First(s, q), Stand(s, q, upto), Stand(s, q, upto) + s.plans[q].slide, p.current.value[q], p.logs, q)
    {
      forall j | 0 <= j < |reports|
        ensures ReportTells(s.plans[q], First(s, q), Stand(s, q, w.floor), SpanEnd(s, q, p), reports[j], Completed, q)
        ensures w.includeCurrent ==>
          ReportTells(s.plans[q], First(s, q), Stand(s, q, upto), Stand(s, q, upto) + s.plans[q].slide, reports[j], Open, q)
      {
        ReportWindows(s, reports[j], w.floor, upto, w.includeCurrent, w.finish, q);
      }
      TogetherOk(s.plans[q], First(s, q), Stand(s, q, w.floor), SpanEnd(s, q, p), reports, Completed, q);
      if w.includeCurrent {
        TogetherOk(s.plans[q], First(s, q), Stand(s, q, upto), Stand(s, q, upto) + s.plans[q].slide, reports, Open, q);
      }
    }
  }

  lemma {:induction false} PublishKeepsStages(s: Setup, w: World, v: World, watermark: Option<nat>)
    requires |v.lanes| == |w.lanes| == s.lanes && v.lanes == w.lanes
    requires forall i :: 0 <= i < |w.lanes| ==> Answered(w, i, watermark)
    requires v.floor == Later(w.floor, watermark) && v.phase == (if w.finish then Finished else Ready) && v.finish == w.finish
    requires w.finish ==> forall i :: 0 <= i < |w.lanes| ==> LastLogged(v, i)
    ensures forall i :: 0 <= i < |v.lanes| ==> Stage(s, v, i)
  {
    hide LastLogged;
    forall i | 0 <= i < |v.lanes|
      ensures Stage(s, v, i)
    {
      assert Answered(w, i, watermark);
    }
  }

  lemma {:induction false} PublishKeepsRest(s: Setup, w: World, v: World)
    requires Inv(s, w) && w.phase.Reporting? && v == w.(published := v.published, floor := v.floor, phase := v.phase)
    requires v.phase == if w.finish then Finished else Ready
    ensures Shaped(s, v) && ChannelsOk(s, v) && ShortQueues(v)
  {
    hide LaneOk, Stage, PublishedOk, AckLanes, ReportLanes, Distinct;
  }

  lemma {:induction false} PublishInv(s: Setup, w: World, watermark: Option<nat>)
    requires Inv(s, w) && w.phase == Reporting(watermark) && w.taken == s.lanes
    ensures Inv(s, Next(s, w, Continue))
    ensures Next(s, w, Continue).phase == if w.finish then Finished else Ready
    ensures var v := Next(s, w, Continue);
      && |v.published| == |w.published| + 1 && v.published[..|w.published|] == w.published
      && v.published[|w.published|].finish == w.finish
      && (v.published[|w.published|].current.Some? <==> w.includeCurrent)
  {
    AllReportsOk(s, w, watermark);
    hide ReportOk, PublicationOk, LaneOk, AckLanes, Publish, UnalignedCurrent, ByLane, Answered, ReportLanes, Stage, ChannelsOk,
      ShortQueues;
    var reports := ByLane(w.reports, s.lanes);
    NewPublicationOk(s, w, watermark, reports);
    var v := Next(s, w, Continue);
    assert v == Publish(s, w, watermark, reports);
    if w.finish {
      AllAnswered(w, watermark);
    }
    PublishKeepsStages(s, w, v, watermark);
    PublishedGrows(s, w, v);
    PublishKeepsRest(s, w, v);
  }

  lemma {:induction false} AllAnswered(w: World, watermark: Option<nat>)
    requires forall i :: 0 <= i < |w.lanes| ==> Answered(w, i, watermark)
    ensures forall i :: 0 <= i < |w.lanes| ==> !w.lanes[i].spoiled
  {
    forall i | 0 <= i < |w.lanes|
      ensures !w.lanes[i].spoiled
    {
      assert Answered(w, i, watermark);
    }
  }

  lemma {:induction false} PublishedGrows(s: Setup, w: World, v: World)
    requires PublishedOk(s, w) && !w.phase.Finished? && !w.phase.Dropped?
    requires |v.published| == |w.published| + 1 && v.published[..|w.published|] == w.published
    requires var p := v.published[|w.published|];
      PublicationOk(s, p) && p.since == w.floor && p.upto == v.floor && (p.finish ==> v.phase.Finished?)
    ensures PublishedOk(s, v)
  {
    hide PublicationOk;
    forall j | 0 <= j < |v.published|
      ensures PublicationOk(s, v.published[j]) && v.published[j].since == UptoBefore(v.published, j)
      ensures v.published[j].finish ==> j == |v.published| - 1
    {
      if j < |w.published| {
        assert v.published[j] == w.published[j];
        if j > 0 {
          assert v.published[j - 1] == w.published[j - 1];
        }
      } else if j > 0 {
        assert v.published[j - 1] == w.published[j - 1];
      }
    }
  }

  lemma {:induction false} ReportStepInv(s: Setup, w: World)
    requires Inv(s, w) && w.phase.Reporting? && CanCoordinate(s, w)
    ensures Inv(s, Next(s, w, Continue))
  {
    hide LaneOk, PublishedOk, AckLanes, ReportLanes, Distinct, ReportOk, Publish;
    var v := Next(s, w, Continue);
    if w.taken >= s.lanes {
      assert w.taken == s.lanes;
      PublishInv(s, w, w.phase.watermark);
    } else if w.reports[w.taken].ok {
      forall i | 0 <= i < |w.lanes|
        ensures Stage(s, v, i)
      {
        assert Stage(s, w, i);
      }
      PublishedSame(s, w, v);
    } else {
      ErroredInv(s, w, ReportRefused);
    }
  }

  // --- every run ---

  lemma {:induction false} NextInv(s: Setup, w: World, a: Action)
    requires Inv(s, w) && Enabled(s, w, a)
    ensures Inv(s, Next(s, w, a))
  {
    hide Inv, Next, Coordinate;
    InvShape(s, w);
    match a
    case Send(i, e) => SendInv(s, w, i, e);
    case Close(i) => CloseInv(s, w, i);
    case Work(i) => WorkInv(s, w, i);
    case Start(finish, includeCurrent) => StartInv(s, w, finish, includeCurrent);
    case GiveUp => GiveUpInv(s, w);
    case Drop => DropInv(s, w);
    case Continue =>
      match w.phase
      case Draining => DrainStepInv(s, w);
      case Pausing(_) => PauseStepInv(s, w);
      case Acking => AckStepInv(s, w);
      case Checkpointing(_, _) => CheckpointStepInv(s, w);
      case Reporting(_) => ReportStepInv(s, w);
      case _ => assert false;
  }

  lemma {:induction false} InvShape(s: Setup, w: World)
    requires Inv(s, w)
    ensures Shaped(s, w)
  {
  }

  predicate Steps(s: Setup, v: World, a: Action, w: World) {
    Shaped(s, v) && Enabled(s, v, a) && w == Next(s, v, a)
  }

  /** One interleaving: every action was enabled and led from each world to the next. */
  ghost predicate IsRun(s: Setup, actions: seq<Action>, worlds: seq<World>) {
    && |worlds| == |actions| + 1 && worlds[0] == Initial(s)
    && forall k :: 0 <= k < |actions| ==> Steps(s, worlds[k], actions[k], worlds[k + 1])
  }

  lemma {:induction false} RunInv(s: Setup, actions: seq<Action>, worlds: seq<World>, k: nat)
    requires IsRun(s, actions, worlds) && k < |worlds|
    ensures Inv(s, worlds[k])
  {
    hide Inv, Next, Enabled, Initial;
    if k == 0 {
      InitialInv(s);
    } else {
      RunInv(s, actions, worlds, k - 1);
      assert Steps(s, worlds[k - 1], actions[k - 1], worlds[k - 1 + 1]);
      NextInv(s, worlds[k - 1], actions[k - 1]);
    }
  }

  // --- the promises of the barrier ---

  /** Over every interleaving, the coordinator never sees a duplicate or missing lane nor
      unaligned windows, and no worker gets two pauses or a checkpoint before its pause:
      a lane fails only because its engine refused an event or everyone else left. */
  lemma {:induction false} ErrorsUnreachable(s: Setup, actions: seq<Action>, worlds: seq<World>, k: nat)
    requires IsRun(s, actions, worlds) && k < |worlds|
    ensures worlds[k].phase != Errored(LaneMismatch) && worlds[k].phase != Errored(Unaligned)
    ensures forall i :: 0 <= i < |worlds[k].lanes| ==>
      worlds[k].lanes[i].pc != Failed(TwoPauses) && worlds[k].lanes[i].pc != Failed(CheckpointBeforePause)
    decreases k
  {
    hide Next, Enabled, Initial, EngineOk, Stage, ChannelsOk, PublishedOk;
    RunInv(s, actions, worlds, k);
    forall i | 0 <= i < |worlds[k].lanes|
      ensures worlds[k].lanes[i].pc != Failed(TwoPauses) && worlds[k].lanes[i].pc != Failed(CheckpointBeforePause)
    {
      assert LaneOk(s, worlds[k].lanes[i]);
    }
    if k > 0 {
      ErrorsUnreachable(s, actions, worlds, k - 1);
      assert Steps(s, worlds[k - 1], actions[k - 1], worlds[k - 1 + 1]);
      RunInv(s, actions, worlds, k - 1);
      NoNewError(s, worlds[k - 1], actions[k - 1]);
    } else {
      StartsReady(s);
    }
  }

  lemma {:induction false} StartsReady(s: Setup)
    ensures Initial(s).phase.Ready?
  {
  }

  lemma {:induction false} NoNewError(s: Setup, w: World, a: Action)
    requires Inv(s, w) && Enabled(s, w, a)
    requires w.phase != Errored(LaneMismatch) && w.phase != Errored(Unaligned)
    ensures Next(s, w, a).phase != Errored(LaneMismatch) && Next(s, w, a).phase != Errored(Unaligned)
  {
    hide LaneOk, PublishedOk, AckLanes, ReportLanes, Distinct, Publish, WorkerStep, Stage, Command;
    if a.Continue? {
      match w.phase
      case Draining =>
        if w.taken >= s.lanes {
          AckPrefix(w.drained, s.lanes);
        }
      case Acking =>
        if w.taken >= s.lanes {
          AckPrefix(w.acks, s.lanes);
        }
      case Reporting(watermark) =>
        if w.taken >= s.lanes {
          PublishInv(s, w, watermark);
        }
      case _ =>
    }
  }

  /** From the moment a lane acknowledges a pause until it answers the checkpoint of that
      round, its engine takes in nothing: it has handled exactly what it acknowledged. */
  lemma {:induction false} NothingBetweenAckAndCheckpoint(s: Setup, actions: seq<Action>, worlds: seq<World>, k: nat, i: nat, j: nat)
    requires IsRun(s, actions, worlds) && k < |worlds| && InCheckpoint(worlds[k])
    requires j < |worlds[k].acks| && worlds[k].acks[j].lane == i && i < |worlds[k].lanes| && !Replied(worlds[k], i)
    ensures worlds[k].lanes[i].pc == Paused(worlds[k].round)
    ensures worlds[k].acks[j].handled == |worlds[k].lanes[i].handled|
    ensures worlds[k].acks[j].maxTs == worlds[k].lanes[i].maxTs == MaxTime(worlds[k].lanes[i].handled)
  {
    hide LaneOk, PublishedOk, ReportLanes, ReportOk, IsRun;
    RunInv(s, actions, worlds, k);
    var w := worlds[k];
    assert Stage(s, w, i) && LaneOk(s, w.lanes[i]);
    assert AckLanes(w.acks)[j] == i;
    LaneTimes(s, w.lanes[i]);
  }

  lemma {:induction false} LaneTimes(s: Setup, l: Lane)
    requires LaneOk(s, l)
    ensures l.maxTs == MaxTime(l.handled)
    ensures !l.pc.Failed? && !l.dataOpen && !Busy(l.pc) ==> l.handled == l.sent
    ensures !l.spoiled ==> EngineOk(s, l)
  {
    hide EngineOk;
  }

  lemma {:induction false} ReportKnown(s: Setup, w: World, watermark: Option<nat>, j: nat)
    requires Inv(s, w) && j < |w.reports| && w.reports[j].ok
    requires w.phase == Reporting(watermark) || (w.phase.Checkpointing? && w.phase.watermark == watermark)
    ensures ReportOk(s, w.reports[j], w.floor, Later(w.floor, watermark), w.includeCurrent, w.finish)
  {
    hide LaneOk, PublishedOk, AckLanes, ReportOk, Distinct;
    var i := w.reports[j].lane;
    assert ReportLanes(w.reports)[j] == i;
    ReportLaneKnown(w.reports, j, s.lanes);
    assert Stage(s, w, i);
    assert Replied(w, i);
  }

  /** All lanes leave a checkpoint with the same rings: whatever lanes two reports of one
      round come from, every query's buckets start at the same times. */
  lemma {:induction false} RingsAgree(s: Setup, actions: seq<Action>, worlds: seq<World>, k: nat, i: nat, j: nat, q: nat)
    requires IsRun(s, actions, worlds) && k < |worlds| && q < |s.plans|
    requires worlds[k].phase.Checkpointing? || worlds[k].phase.Reporting?
    requires i < |worlds[k].reports| && j < |worlds[k].reports| && worlds[k].reports[i].ok && worlds[k].reports[j].ok
    ensures |worlds[k].reports[i].rings| == |worlds[k].reports[j].rings| == |s.plans|
    ensures worlds[k].reports[i].rings[q] == worlds[k].reports[j].rings[q]
  {
    hide Inv, IsRun, RingOk, WindowsOk, Stand, First;
    RunInv(s, actions, worlds, k);
    var w := worlds[k];
    var watermark := w.phase.watermark;
    ReportKnown(s, w, watermark, i);
    ReportKnown(s, w, watermark, j);
    RingUnique(s.plans[q], First(s, q), Stand(s, q, Later(w.floor, watermark)), w.reports[i].rings[q], w.reports[j].rings[q],
               w.reports[i].logs[q], w.reports[j].logs[q]);
  }

  /** The watermarks of publications never go back. */
  lemma {:induction false} SpansFollow(s: Setup, w: World, i: nat, j: nat)
    requires PublishedOk(s, w) && i < j < |w.published|
    ensures AtMost(w.published[i].upto, w.published[j].since)
    decreases j
  {
    hide PublishedOk;
    SpanGrows(s, w, j);
    if i < j - 1 {
      SpansFollow(s, w, i, j - 1);
      SpanGrows(s, w, j - 1);
    }
  }

  lemma {:induction false} SpanGrows(s: Setup, w: World, j: nat)
    requires PublishedOk(s, w) && j < |w.published|
    ensures AtMost(w.published[j].since, w.published[j].upto)
    ensures 0 < j ==> w.published[j].since == w.published[j - 1].upto
  {
    hide Tells, First, Stand;
    assert PublicationOk(s, w.published[j]);
    assert w.published[j].since == UptoBefore(w.published, j);
  }

  /** No window is published twice: two published windows of one query that end together
      are in the same publication and have the same bounds, so merging made them one. */
  lemma {:induction false} NothingPublishedTwice(s: Setup, actions: seq<Action>, worlds: seq<World>, k: nat, q: nat,
                                                 i: nat, a: nat, j: nat, b: nat)
    requires IsRun(s, actions, worlds) && k < |worlds| && q < |s.plans|
    requires i <= j < |worlds[k].published|
    requires q < |worlds[k].published[i].windows| && a < |worlds[k].published[i].windows[q]|
    requires q < |worlds[k].published[j].windows| && b < |worlds[k].published[j].windows[q]|
    requires worlds[k].published[i].windows[q][a].end == worlds[k].published[j].windows[q][b].end
    ensures i == j && worlds[k].published[i].windows[q][a].start == worlds[k].published[j].windows[q][b].start
  {
    hide Inv, IsRun, Stand, First, EventsAt;
    RunInv(s, actions, worlds, k);
    var w := worlds[k];
    InvPublished(s, w);
    assert PublicationOk(s, w.published[i]) && PublicationOk(s, w.published[j]);
    if i < j {
      SpansFollow(s, w, i, j);
      StandMonotone(s, q, w.published[i].upto, w.published[j].since);
      assert false;
    }
  }

  lemma {:induction false} PublishedOne(s: Setup, w: World, j: nat)
    requires PublishedOk(s, w) && j < |w.published|
    ensures PublicationOk(s, w.published[j])
  {
    hide PublicationOk;
  }

  lemma {:induction false} InvPublished(s: Setup, w: World)
    requires Inv(s, w)
    ensures PublishedOk(s, w)
  {
  }

  // --- what was published is part of what the lanes have logged ---

  ghost predicate LogsBelow(a: seq<seq<Arrival>>, b: seq<seq<Arrival>>) {
    |a| == |b| && forall q :: 0 <= q < |a| ==> a[q] <= b[q]
  }

  ghost predicate LogsKept(w: World) {
    && (forall j :: 0 <= j < |w.reports| && w.reports[j].ok ==>
          w.reports[j].lane < |w.lanes| && LogsBelow(w.reports[j].logs, w.lanes[w.reports[j].lane].logs))
    && (forall j :: 0 <= j < |w.published| ==> PublishedBelow(w.published[j], w.lanes))
  }

  ghost predicate PublishedBelow(p: Publication, lanes: seq<Lane>) {
    |p.logs| == |lanes| && forall i :: 0 <= i < |lanes| ==> LogsBelow(p.logs[i], lanes[i].logs)
  }

  ghost predicate LanesGrow(before: seq<Lane>, after: seq<Lane>) {
    |before| == |after| && forall i :: 0 <= i < |before| ==> LogsBelow(before[i].logs, after[i].logs)
  }

  lemma {:induction false} BelowTrans(a: seq<seq<Arrival>>, b: seq<seq<Arrival>>, c: seq<seq<Arrival>>)
    requires LogsBelow(a, b) && LogsBelow(b, c)
    ensures LogsBelow(a, c)
  {
  }

  lemma {:induction false} LogsGrow(plans: Plans, after: seq<Query>, e: FlowEvent, logs: seq<seq<Arrival>>)
    requires |after| == |plans| == |logs|
    ensures LogsBelow(logs, LogAll(plans, after, e, logs))
  {
    hide BucketStart;
  }

  lemma {:induction false} StepLogs(s: Setup, w: World, i: nat)
    requires Shaped(s, w) && i < |w.lanes| && CanStep(w, w.lanes[i])
    ensures var m := WorkerStep(s, w, i);
      && LogsBelow(w.lanes[i].logs, m.lane.logs)
      && (m.sent.SentReport? && m.sent.report.ok ==> m.sent.report.lane == i && m.sent.report.logs == m.lane.logs)
  {
    hide LogAll, CanProcessAll, AdvanceAll, FinishAll, EmittedAll, CurrentAll, RingsAll, Process;
    var l := w.lanes[i];
    if l.pc.Handling? {
      LogsGrow(s.plans, ProcessAll(s.plans, l.engine, l.pc.event), l.pc.event, l.logs);
    }
  }

  lemma {:induction false} NextLanesGrow(s: Setup, w: World, a: Action)
    requires Shaped(s, w) && Enabled(s, w, a)
    ensures LanesGrow(w.lanes, Next(s, w, a).lanes)
  {
    hide WorkerStep, LanesExact, UnalignedCurrent, TogetherAll, ReportedLogs, ByLane;
    if a.Work? {
      StepLogs(s, w, a.lane);
    }
  }

  lemma {:induction false} KeptGrows(w: World, lanes: seq<Lane>)
    requires LogsKept(w) && LanesGrow(w.lanes, lanes)
    ensures LogsKept(w.(lanes := lanes))
  {
    hide LogsBelow;
    forall j | 0 <= j < |w.reports| && w.reports[j].ok
      ensures LogsBelow(w.reports[j].logs, lanes[w.reports[j].lane].logs)
    {
      BelowTrans(w.reports[j].logs, w.lanes[w.reports[j].lane].logs, lanes[w.reports[j].lane].logs);
    }
    forall j | 0 <= j < |w.published|
      ensures PublishedBelow(w.published[j], lanes)
    {
      assert PublishedBelow(w.published[j], w.lanes);
      forall i | 0 <= i < |lanes|
        ensures LogsBelow(w.published[j].logs[i], lanes[i].logs)
      {
        BelowTrans(w.published[j].logs[i], w.lanes[i].logs, lanes[i].logs);
      }
    }
  }

  lemma {:induction false} SameLogs(logs: seq<seq<Arrival>>)
    ensures LogsBelow(logs, logs)
  {
  }

  lemma {:induction false} PublishKeepsLogs(s: Setup, w: World)
    requires Inv(s, w) && LogsKept(w) && w.phase.Reporting? && w.taken == s.lanes
    ensures LogsKept(Next(s, w, Continue))
  {
    hide ReportOk, PublicationOk, LaneOk, AckLanes, UnalignedCurrent, Answered, ReportLanes, LogsBelow, Stage, PublishedOk;
    AllReportsOk(s, w, w.phase.watermark);
    var v := Next(s, w, Continue);
    var sorted := ByLane(w.reports, s.lanes);
    forall i | 0 <= i < s.lanes
      ensures LogsBelow(ReportedLogs(sorted)[i], w.lanes[i].logs)
    {
      var j :| 0 <= j < |w.reports| && w.reports[j] == sorted[i];
      assert w.reports[j].ok && w.reports[j].lane == i;
    }
    forall j | 0 <= j < |v.published|
      ensures PublishedBelow(v.published[j], v.lanes)
    {
      if j < |w.published| {
        assert PublishedBelow(w.published[j], w.lanes);
      }
    }
  }

  lemma {:induction false} NextKeepsLogs(s: Setup, w: World, a: Action)
    requires Inv(s, w) && LogsKept(w) && Enabled(s, w, a)
    ensures LogsKept(Next(s, w, a))
  {
    hide LogsBelow, LanesGrow, PublishedBelow, LaneOk, Stage, ChannelsOk, PublishedOk, WorkerStep, Publish, LanesExact;
    var v := Next(s, w, a);
    NextLanesGrow(s, w, a);
    KeptGrows(w, v.lanes);
    if a.Work? {
      StepLogs(s, w, a.lane);
      WorkKeepsLogs(s, w, a.lane);
    } else if a.Continue? && w.phase.Reporting? && w.taken >= s.lanes {
      ReportsTaken(s, w);
      PublishKeepsLogs(s, w);
    } else {
      assert v.published == w.published && (v.reports == w.reports || v.reports == []);
    }
  }

  lemma {:induction false} ReportsTaken(s: Setup, w: World)
    requires Inv(s, w) && w.phase.Reporting?
    ensures w.taken <= s.lanes
  {
    hide LaneOk, Stage, PublishedOk;
  }

  lemma {:induction false} WorkKeepsLogs(s: Setup, w: World, i: nat)
    requires Shaped(s, w) && Enabled(s, w, Work(i))
    requires LogsKept(w.(lanes := Next(s, w, Work(i)).lanes))
    ensures LogsKept(Next(s, w, Work(i)))
  {
    hide WorkerStep, LogsBelow, PublishedBelow;
    StepLogs(s, w, i);
    var m, v := WorkerStep(s, w, i), Next(s, w, Work(i));
    if m.sent.SentReport? && m.sent.report.ok {
      SameLogs(m.lane.logs);
      assert LogsBelow(m.sent.report.logs, v.lanes[i].logs);
    }
  }

  lemma {:induction false} RunKeepsLogs(s: Setup, actions: seq<Action>, worlds: seq<World>, k: nat)
    requires IsRun(s, actions, worlds) && k < |worlds|
    ensures LogsKept(worlds[k])
  {
    hide Inv, Next, Enabled, LogsKept;
    if k == 0 {
      NoLogs(s);
    } else {
      RunKeepsLogs(s, actions, worlds, k - 1);
      RunInv(s, actions, worlds, k - 1);
      assert Steps(s, worlds[k - 1], actions[k - 1], worlds[k - 1 + 1]);
      NextKeepsLogs(s, worlds[k - 1], actions[k - 1]);
    }
  }

  lemma {:induction false} NoLogs(s: Setup)
    ensures LogsKept(Initial(s))
  {
  }

  /** What a publication says of a window, once its parts are merged by bounds, is exactly
      what the lanes together had logged for it by then: the matching events that arrived
      before it closed and whose bucket lies inside it. The open windows it says the same of
      are those at its watermark. */
  lemma {:induction false} PublishedIsExact(s: Setup, actions: seq<Action>, worlds: seq<World>, k: nat, j: nat, q: nat, key: Bounds)
    requires IsRun(s, actions, worlds) && k < |worlds| && q < |s.plans| && j < |worlds[k].published|
    ensures var p := worlds[k].published[j];
      && |p.windows| == |s.plans| && |p.logs| == s.lanes == |worlds[k].lanes|
      && (forall i :: 0 <= i < s.lanes ==> LogsBelow(p.logs[i], worlds[k].lanes[i].logs))
      && EventsAt(p.windows[q], key)
         == (if OnGrid(s.plans[q], First(s, q), Stand(s, q, p.since), SpanEnd(s, q, p), key)
             then CoveredBy(p.logs, q, key, s.lanes) else multiset{})
      && (p.current.Some? ==> |p.current.value| == |s.plans|)
      && (p.current.Some? ==>
           EventsAt(p.current.value[q], key)
           == (if OnGrid(s.plans[q], First(s, q), Stand(s, q, p.upto), Stand(s, q, p.upto) + s.plans[q].slide, key)
               then CoveredBy(p.logs, q, key, s.lanes) else multiset{}))
  {
    hide Inv, IsRun, EndsBetween, Stand, First, OnGrid, EventsAt, LogsBelow, CoveredBy, AtMost, PublishedOk, Aligned;
    RunInv(s, actions, worlds, k);
    RunKeepsLogs(s, actions, worlds, k);
    InvPublished(s, worlds[k]);
    var p := worlds[k].published[j];
    PublishedOne(s, worlds[k], j);
    assert PublishedBelow(p, worlds[k].lanes);
  }

  /** The final checkpoint completes only after every event sent to any lane was handled,
      and what it published counts every one of them that matched. */
  lemma {:induction false} FinalCheckpointCountsAll(s: Setup, actions: seq<Action>, worlds: seq<World>, k: nat, i: nat, q: nat)
    requires IsRun(s, actions, worlds) && k < |worlds| && worlds[k].phase.Finished?
    requires i < |worlds[k].lanes| && q < |s.plans|
    ensures worlds[k].lanes[i].handled == worlds[k].lanes[i].sent
    ensures var p := worlds[k].published;
      && p != [] && p[|p| - 1].finish && i < |p[|p| - 1].logs| && q < |p[|p| - 1].logs[i]|
      && EventsOf(p[|p| - 1].logs[i][q]) == Matching(s.plans[q], worlds[k].lanes[i].sent)
  {
    hide LaneOk, IsRun, AckLanes, QueryOk, EventsOf, Matching;
    RunInv(s, actions, worlds, k);
    var w := worlds[k];
    assert Stage(s, w, i) && LaneOk(s, w.lanes[i]);
    FinishedDrained(s, w, i);
    LaneTimes(s, w.lanes[i]);
  }

  lemma {:induction false} FinishedDrained(s: Setup, w: World, i: nat)
    requires Inv(s, w) && w.phase.Finished? && i < |w.lanes|
    ensures !w.lanes[i].dataOpen
  {
    hide LaneOk, AckLanes, PublicationOk;
    assert Stage(s, w, i);
    var n := |w.published|;
    assert w.published[n - 1].finish;
  }
}
