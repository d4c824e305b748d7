/** Progress of the checkpoint barrier: an open checkpoint is never stuck, and from every
    reachable state the parties it waits for can bring it to an end. */
module LaneProgress {
  import opened LaneBarrier
  import opened LaneInvariants
  import opened LaneProtocol
  import opened Options

  predicate Waits(p: Phase) {
    p.Draining? || p.Pausing? || p.Acking? || p.Checkpointing? || p.Reporting?
  }

  // --- a lane is idle only once its input is over ---

  predicate IdleDone(lanes: seq<Lane>) {
    forall i :: 0 <= i < |lanes| && lanes[i].pc.Idle? ==> !lanes[i].dataOpen
  }

  lemma {:induction false} StepIdle(s: Setup, w: World, i: nat)
    requires Shaped(s, w) && i < |w.lanes| && CanStep(w, w.lanes[i])
    requires w.lanes[i].pc.Idle? ==> !w.lanes[i].dataOpen
    ensures WorkerStep(s, w, i).lane.pc.Idle? ==> !WorkerStep(s, w, i).lane.dataOpen
  {
    hide ProcessAll, LogAll, CanProcessAll, BuildReport, Receives;
  }

  lemma {:induction false} CoordinateIdle(s: Setup, w: World)
    requires |w.lanes| == s.lanes && CanCoordinate(s, w) && IdleDone(w.lanes)
    requires w.taken <= |w.drained| || !w.phase.Draining?
    requires w.taken <= |w.acks| || !w.phase.Acking?
    requires w.taken <= |w.reports| || !w.phase.Reporting?
    ensures IdleDone(Coordinate(s, w).lanes)
  {
    hide LanesExact, UnalignedCurrent, TogetherAll, ReportedLogs, ByLane, Watermark;
  }

  lemma {:induction false} NextIdle(s: Setup, w: World, a: Action)
    requires Shaped(s, w) && Enabled(s, w, a) && IdleDone(w.lanes)
    ensures IdleDone(Next(s, w, a).lanes)
  {
    hide WorkerStep, Coordinate;
    if a.Work? {
      StepIdle(s, w, a.lane);
    } else if a.Continue? {
      CoordinateIdle(s, w);
    }
  }

  lemma {:induction false} RunIdle(s: Setup, actions: seq<Action>, worlds: seq<World>, k: nat)
    requires IsRun(s, actions, worlds) && k < |worlds|
    ensures IdleDone(worlds[k].lanes)
  {
    hide Next, Enabled, IdleDone;
    if k == 0 {
      StartsBusy(s);
    } else {
      RunIdle(s, actions, worlds, k - 1);
      assert Steps(s, worlds[k - 1], actions[k - 1], worlds[k - 1 + 1]);
      NextIdle(s, worlds[k - 1], actions[k - 1]);
    }
  }

  lemma {:induction false} StartsBusy(s: Setup)
    ensures IdleDone(Initial(s).lanes)
  {
  }

  // --- a lane looks at its commands after every batch ---

  /** How many events the lane has handled since it last looked. */
  predicate WithinBatch(s: Setup, l: Lane) {
    && (l.pc.Handling? ==> l.pc.done < s.batch)
    && (l.pc.Polling? ==> 0 < l.pc.done < s.batch)
  }

  lemma {:induction false} StepWithin(s: Setup, w: World, i: nat)
    requires Shaped(s, w) && i < |w.lanes| && CanStep(w, w.lanes[i]) && 0 < s.batch && WithinBatch(s, w.lanes[i])
    ensures var l, m := w.lanes[i], WorkerStep(s, w, i).lane;
      && WithinBatch(s, m)
      && (m.handled != l.handled ==> l.pc.Handling? && m.handled == l.handled + [l.pc.event])
      && (m.handled != l.handled ==> m.pc == if l.pc.done + 1 == s.batch then Top else Polling(l.pc.done + 1))
      && (m.pc.Handling? ==> m.pc.done == if l.pc.Polling? then l.pc.done else 0)
  {
    hide ProcessAll, LogAll, CanProcessAll, BuildReport, Receives;
  }

  lemma {:induction false} CoordinateWithin(s: Setup, w: World)
    requires |w.lanes| == s.lanes && CanCoordinate(s, w)
    requires forall i :: 0 <= i < |w.lanes| ==> WithinBatch(s, w.lanes[i])
    requires w.taken <= |w.drained| || !w.phase.Draining?
    requires w.taken <= |w.acks| || !w.phase.Acking?
    requires w.taken <= |w.reports| || !w.phase.Reporting?
    ensures forall i :: 0 <= i < |Coordinate(s, w).lanes| ==> WithinBatch(s, Coordinate(s, w).lanes[i])
  {
    hide LanesExact, UnalignedCurrent, TogetherAll, ReportedLogs, ByLane, Watermark;
  }

  lemma {:induction false} NextWithin(s: Setup, w: World, a: Action)
    requires Shaped(s, w) && Enabled(s, w, a) && 0 < s.batch
    requires forall i :: 0 <= i < |w.lanes| ==> WithinBatch(s, w.lanes[i])
    ensures forall i :: 0 <= i < |Next(s, w, a).lanes| ==> WithinBatch(s, Next(s, w, a).lanes[i])
  {
    hide WorkerStep, Coordinate;
    if a.Work? {
      StepWithin(s, w, a.lane);
    } else if a.Continue? {
      CoordinateWithin(s, w);
    }
  }

  /** In every run a lane handles at most a batch of events before it looks at its commands
      again, however many are waiting. */
  lemma {:induction false} LooksAfterBatch(s: Setup, actions: seq<Action>, worlds: seq<World>, k: nat)
    requires IsRun(s, actions, worlds) && k < |worlds| && 0 < s.batch
    ensures forall i :: 0 <= i < |worlds[k].lanes| ==> WithinBatch(s, worlds[k].lanes[i])
  {
    hide Next, Enabled, WithinBatch;
    if k == 0 {
      StartsWithin(s);
    } else {
      LooksAfterBatch(s, actions, worlds, k - 1);
      assert Steps(s, worlds[k - 1], actions[k - 1], worlds[k - 1 + 1]);
      NextWithin(s, worlds[k - 1], actions[k - 1]);
    }
  }

  lemma {:induction false} StartsWithin(s: Setup)
    ensures forall i :: 0 <= i < |Initial(s).lanes| ==> WithinBatch(s, Initial(s).lanes[i])
  {
  }

  // --- how far a checkpoint is from its end ---

  function PhaseLeft(p: Phase): nat {
    match p
    case Draining => 5
    case Pausing(_) => 4
    case Acking => 3
    case Checkpointing(_, _) => 2
    case Reporting(_) => 1
    case _ => 0
  }

  function Less(n: nat, k: nat): nat {
    if k < n then n - k else 0
  }

  /** Lanes still to be told, or replies still to be taken. */
  function CoordinatorLeft(s: Setup, w: World): nat {
    match w.phase
    case Pausing(k) => Less(s.lanes, k)
    case Checkpointing(k, _) => Less(s.lanes, k)
    case _ => Less(s.lanes, w.taken)
  }

  /** Steps of a lane until it answers the command that waits for it. */
  function CommandLeft(l: Lane): nat {
    |l.controls| + 2 * |l.queue|
    + match l.pc
      case Handling(_, _) => 2
      case Receiving => 1
      case Polling(_) => 1
      case _ => 0
  }

  /** Steps of a lane and its sender until the lane has drained its queue. */
  function DrainLeft(l: Lane): nat {
    (if l.open_ then 1 else 0)
    + if l.dataOpen then
        2 + 4 * |l.queue| + (match l.pc case Handling(_, _) => 2 case Top => 1 case _ => 0)
      else 0
  }

  function LaneLeft(p: Phase, l: Lane): nat {
    if p.Draining? then DrainLeft(l) else CommandLeft(l)
  }

  function LanesLeft(p: Phase, lanes: seq<Lane>): nat {
    if lanes == [] then 0 else LanesLeft(p, lanes[..|lanes| - 1]) + LaneLeft(p, lanes[|lanes| - 1])
  }

  lemma {:induction false} LanesLeftAt(p: Phase, lanes: seq<Lane>, i: nat, l: Lane)
    requires i < |lanes|
    ensures LanesLeft(p, lanes[i := l]) == LanesLeft(p, lanes) - LaneLeft(p, lanes[i]) + LaneLeft(p, l)
  {
    hide LaneLeft;
    var init, last := lanes[..|lanes| - 1], |lanes| - 1;
    var after := lanes[i := l];
    if i == last {
      assert after[..last] == init;
    } else {
      LanesLeftAt(p, init, i, l);
      assert after[..last] == init[i := l];
    }
  }

  /** The checkpoint has ended, or is closer to its end. */
  predicate Closer(s: Setup, w: World, v: World) {
    || !Waits(v.phase)
    || PhaseLeft(v.phase) < PhaseLeft(w.phase)
    || (PhaseLeft(v.phase) == PhaseLeft(w.phase)
        && (CoordinatorLeft(s, v) < CoordinatorLeft(s, w)
            || (CoordinatorLeft(s, v) == CoordinatorLeft(s, w) && LanesLeft(v.phase, v.lanes) < LanesLeft(w.phase, w.lanes))))
  }

  /** Steps of the workers and the coordinator, of senders that stop, and of a coordinator
      that finds a worker gone. */
  predicate Helps(w: World, a: Action) {
    || a.Work? || a.Continue?
    || (a.Close? && w.phase.Draining?)
    || (a.GiveUp? && exists i :: 0 <= i < |w.lanes| && Dead(w.lanes[i]))
  }

  // --- one step ---

  lemma {:induction false} MissingLane(lanes: seq<nat>, n: nat) returns (i: nat)
    requires |lanes| < n
    ensures i < n && i !in lanes
  {
    if forall i: nat :: i < n ==> i in lanes {
      AllPresent(lanes, n);
      assert false;
    }
    i :| i < n && i !in lanes;
  }

  lemma {:induction false} AllPresent(lanes: seq<nat>, n: nat)
    requires forall i: nat :: i < n ==> i in lanes
    ensures n <= |lanes|
    decreases n
  {
    if n > 0 {
      assert n - 1 in lanes;
      var k :| 0 <= k < |lanes| && lanes[k] == n - 1;
      var rest := lanes[..k] + lanes[k + 1..];
      forall i: nat | i < n - 1
        ensures i in rest
      {
        assert i in lanes;
        var j :| 0 <= j < |lanes| && lanes[j] == i;
        assert rest[if j < k then j else j - 1] == i;
      }
      AllPresent(rest, n - 1);
    }
  }

  /** A lane whose sender has stopped comes closer to an empty queue. */
  lemma {:induction false} DrainWork(s: Setup, w: World, i: nat)
    requires Shaped(s, w) && i < |w.lanes| && !w.phase.Dropped?
    requires var l := w.lanes[i];
      l.dataOpen && !l.open_ && l.controls == [] && (l.pc.Top? || l.pc.Receiving? || l.pc.Handling? || l.pc.Polling?)
    ensures CanStep(w, w.lanes[i]) && DrainLeft(WorkerStep(s, w, i).lane) < DrainLeft(w.lanes[i])
  {
    hide ProcessAll, LogAll, CanProcessAll;
  }

  /** A lane that was sent a pause comes closer to acknowledging it. */
  lemma {:induction false} PauseWork(s: Setup, w: World, i: nat)
    requires Shaped(s, w) && i < |w.lanes| && w.phase.Acking?
    requires var l := w.lanes[i];
      l.controls == [Pause(w.round)] && !l.pc.Paused? && !l.pc.Exited? && !l.pc.Failed?
    ensures CanStep(w, w.lanes[i]) && CommandLeft(WorkerStep(s, w, i).lane) < CommandLeft(w.lanes[i])
  {
    hide ProcessAll, LogAll, CanProcessAll;
  }

  /** A paused lane answers its checkpoint. */
  lemma {:induction false} CheckpointWork(s: Setup, w: World, i: nat, watermark: Option<nat>)
    requires Shaped(s, w) && i < |w.lanes| && w.phase.Reporting? && Commanded(w, i, watermark)
    ensures CanStep(w, w.lanes[i]) && CommandLeft(WorkerStep(s, w, i).lane) < CommandLeft(w.lanes[i])
  {
    hide BuildReport;
  }

  lemma {:induction false} WorkCloser(s: Setup, w: World, i: nat)
    requires Shaped(s, w) && Waits(w.phase) && i < |w.lanes| && CanStep(w, w.lanes[i])
    requires LaneLeft(w.phase, WorkerStep(s, w, i).lane) < LaneLeft(w.phase, w.lanes[i])
    ensures Closer(s, w, Next(s, w, Work(i)))
  {
    hide WorkerStep, LaneLeft, LanesLeft;
    LanesLeftAt(w.phase, w.lanes, i, WorkerStep(s, w, i).lane);
  }

  lemma {:induction false} CloseCloser(s: Setup, w: World, i: nat)
    requires Shaped(s, w) && w.phase.Draining? && i < |w.lanes| && w.lanes[i].open_
    ensures Closer(s, w, Next(s, w, Close(i)))
  {
    hide LanesLeft;
    LanesLeftAt(w.phase, w.lanes, i, w.lanes[i].(open_ := false));
  }

  lemma {:induction false} CoordinateCloser(s: Setup, w: World)
    requires |w.lanes| == s.lanes && Waits(w.phase) && CanCoordinate(s, w)
    requires w.taken <= |w.drained| || !w.phase.Draining?
    requires w.taken <= |w.acks| || !w.phase.Acking?
    requires w.taken <= |w.reports| || !w.phase.Reporting?
    ensures Closer(s, w, Coordinate(s, w))
  {
    hide LanesExact, UnalignedCurrent, TogetherAll, ReportedLogs, ByLane, LanesLeft, Watermark;
  }

  lemma {:induction false} ContinueCloser(s: Setup, w: World)
    requires Shaped(s, w) && Waits(w.phase) && CanCoordinate(s, w)
    ensures Closer(s, w, Next(s, w, Continue))
  {
    hide Coordinate, Closer;
    CoordinateCloser(s, w);
  }

  lemma {:induction false} DrainingHelp(s: Setup, w: World) returns (a: Action)
    requires Inv(s, w) && IdleDone(w.lanes) && w.phase.Draining? && !CanCoordinate(s, w)
    ensures Enabled(s, w, a) && Helps(w, a) && Closer(s, w, Next(s, w, a))
  {
    hide PublishedOk, LaneOk, LanesLeft, WorkerStep;
    var i := MissingLane(AckLanes(w.drained), s.lanes);
    assert Stage(s, w, i);
    var l := w.lanes[i];
    if l.pc.Failed? {
      assert Dead(l);
      a := GiveUp;
    } else if l.open_ {
      CloseCloser(s, w, i);
      a := Close(i);
    } else {
      DrainWork(s, w, i);
      WorkCloser(s, w, i);
      a := Work(i);
    }
  }

  lemma {:induction false} AckingHelp(s: Setup, w: World) returns (a: Action)
    requires Inv(s, w) && w.phase.Acking? && !CanCoordinate(s, w)
    ensures Enabled(s, w, a) && Helps(w, a) && Closer(s, w, Next(s, w, a))
  {
    hide PublishedOk, LaneOk, LanesLeft, WorkerStep;
    var i := MissingLane(AckLanes(w.acks), s.lanes);
    assert Stage(s, w, i);
    var l := w.lanes[i];
    if l.pc.Failed? {
      assert Dead(l);
      a := GiveUp;
    } else {
      PauseWork(s, w, i);
      WorkCloser(s, w, i);
      a := Work(i);
    }
  }

  lemma {:induction false} ReportingHelp(s: Setup, w: World) returns (a: Action)
    requires Inv(s, w) && w.phase.Reporting? && !CanCoordinate(s, w)
    ensures Enabled(s, w, a) && Helps(w, a) && Closer(s, w, Next(s, w, a))
  {
    hide PublishedOk, LaneOk, LanesLeft, WorkerStep, ReportSays;
    var i := MissingLane(ReportLanes(w.reports), s.lanes);
    assert Stage(s, w, i);
    CheckpointWork(s, w, i, w.phase.watermark);
    WorkCloser(s, w, i);
    a := Work(i);
  }

  /** While a checkpoint is open some step of a worker or the coordinator is possible, or of
      a sender that has yet to stop for a final one, or a worker is gone; and there is one
      that brings the checkpoint closer to its end. */
  lemma {:induction false} NeverStuck(s: Setup, w: World) returns (a: Action)
    requires Inv(s, w) && IdleDone(w.lanes) && Waits(w.phase)
    ensures Enabled(s, w, a) && Helps(w, a) && Closer(s, w, Next(s, w, a))
  {
    hide Inv, Closer, Next, IdleDone;
    InvShape(s, w);
    if CanCoordinate(s, w) {
      ContinueCloser(s, w);
      a := Continue;
    } else if w.phase.Draining? {
      a := DrainingHelp(s, w);
    } else if w.phase.Acking? {
      a := AckingHelp(s, w);
    } else {
      a := ReportingHelp(s, w);
    }
  }

  // --- a refused report comes from an engine that refused ---

  predicate RefusedSpoiled(w: World) {
    forall j :: 0 <= j < |w.reports| && !w.reports[j].ok ==>
      w.reports[j].lane < |w.lanes| && w.lanes[w.reports[j].lane].spoiled
  }

  predicate StaySpoiled(before: seq<Lane>, after: seq<Lane>) {
    |before| == |after| && forall i :: 0 <= i < |before| && before[i].spoiled ==> after[i].spoiled
  }

  lemma {:induction false} StepSpoils(s: Setup, w: World, i: nat)
    requires Shaped(s, w) && i < |w.lanes| && CanStep(w, w.lanes[i])
    ensures var m := WorkerStep(s, w, i);
      && (w.lanes[i].spoiled ==> m.lane.spoiled)
      && (m.sent.SentReport? && !m.sent.report.ok ==> m.sent.report.lane == i && m.lane.spoiled)
  {
    hide ProcessAll, LogAll, CanProcessAll, AdvanceAll, FinishAll, EmittedAll, CurrentAll, RingsAll;
  }

  lemma {:induction false} NextStaySpoiled(s: Setup, w: World, a: Action)
    requires Shaped(s, w) && Enabled(s, w, a)
    ensures StaySpoiled(w.lanes, Next(s, w, a).lanes)
  {
    hide WorkerStep, LanesExact, UnalignedCurrent, TogetherAll, ReportedLogs, ByLane;
    if a.Work? {
      StepSpoils(s, w, a.lane);
    }
  }

  lemma {:induction false} NextReports(s: Setup, w: World, a: Action)
    requires Shaped(s, w) && Enabled(s, w, a) && !a.Work?
    ensures Next(s, w, a).reports == w.reports || Next(s, w, a).reports == []
  {
    hide LanesExact, UnalignedCurrent, TogetherAll, ReportedLogs, ByLane;
  }

  lemma {:induction false} NextSpoils(s: Setup, w: World, a: Action)
    requires Shaped(s, w) && Enabled(s, w, a) && RefusedSpoiled(w)
    ensures RefusedSpoiled(Next(s, w, a))
  {
    NextStaySpoiled(s, w, a);
    if a.Work? {
      hide WorkerStep, Shaped;
      StepSpoils(s, w, a.lane);
    } else {
      hide Next;
      NextReports(s, w, a);
    }
  }

  lemma {:induction false} RunSpoils(s: Setup, actions: seq<Action>, worlds: seq<World>, k: nat)
    requires IsRun(s, actions, worlds) && k < |worlds|
    ensures RefusedSpoiled(worlds[k])
  {
    hide Next, Enabled, RefusedSpoiled;
    if k == 0 {
      NoneRefused(s);
    } else {
      RunSpoils(s, actions, worlds, k - 1);
      assert Steps(s, worlds[k - 1], actions[k - 1], worlds[k - 1 + 1]);
      NextSpoils(s, worlds[k - 1], actions[k - 1]);
    }
  }

  lemma {:induction false} NoneRefused(s: Setup)
    ensures RefusedSpoiled(Initial(s))
  {
  }

  // --- the end ---

  /** The checkpoint was completed, or a worker is gone, or an engine refused it. */
  predicate Ended(w: World) {
    || w.phase.Ready? || w.phase.Finished?
    || (w.phase == Errored(WorkerGone) && exists i :: 0 <= i < |w.lanes| && Dead(w.lanes[i]))
    || (w.phase == Errored(ReportRefused) && exists i :: 0 <= i < |w.lanes| && w.lanes[i].spoiled)
  }

  lemma {:induction false} HelpEnds(s: Setup, w: World, a: Action)
    requires Inv(s, w) && RefusedSpoiled(w) && Waits(w.phase) && Enabled(s, w, a) && Helps(w, a)
    ensures Waits(Next(s, w, a).phase) || Ended(Next(s, w, a))
  {
    hide LaneOk, PublishedOk, AckLanes, ReportLanes, Distinct, Publish, WorkerStep, Stage;
    if a.Continue? {
      match w.phase
      case Draining =>
        if w.taken >= s.lanes {
          AckPrefix(w.drained, s.lanes);
        }
      case Acking =>
        if w.taken >= s.lanes {
          AckPrefix(w.acks, s.lanes);
        }
      case Pausing(k) =>
        if k < s.lanes && Dead(w.lanes[k]) {
          assert Dead(Next(s, w, a).lanes[k]);
        }
      case Checkpointing(k, _) =>
        if k < s.lanes && Dead(w.lanes[k]) {
          assert Dead(Next(s, w, a).lanes[k]);
        }
      case Reporting(watermark) =>
        if w.taken >= s.lanes {
          PublishInv(s, w, watermark);
        }
    } else if a.GiveUp? {
      var i :| 0 <= i < |w.lanes| && Dead(w.lanes[i]);
      assert Dead(Next(s, w, a).lanes[i]);
    }
  }

  /** Some steps of the parties a checkpoint waits for, one after the other. */
  ghost predicate IsHelp(s: Setup, actions: seq<Action>, worlds: seq<World>) {
    && |worlds| == |actions| + 1
    && forall k :: 0 <= k < |actions| ==> Steps(s, worlds[k], actions[k], worlds[k + 1]) && Helps(worlds[k], actions[k])
  }

  lemma {:induction false} HelpFirst(s: Setup, w: World, a: Action, actions: seq<Action>, worlds: seq<World>)
    requires IsHelp(s, actions, worlds) && Steps(s, w, a, worlds[0]) && Helps(w, a)
    ensures IsHelp(s, [a] + actions, [w] + worlds)
  {
    hide Steps, Helps;
    var more, all := [a] + actions, [w] + worlds;
    forall k | 0 <= k < |more|
      ensures Steps(s, all[k], more[k], all[k + 1]) && Helps(all[k], more[k])
    {
      if k > 0 {
        assert Steps(s, worlds[k - 1], actions[k - 1], worlds[k - 1 + 1]) && Helps(worlds[k - 1], actions[k - 1]);
      }
    }
  }

  lemma {:induction false} HelpOn(s: Setup, w: World) returns (actions: seq<Action>, worlds: seq<World>)
    requires Inv(s, w) && IdleDone(w.lanes) && RefusedSpoiled(w) && Waits(w.phase)
    ensures IsHelp(s, actions, worlds) && worlds[0] == w && Ended(worlds[|worlds| - 1])
    decreases PhaseLeft(w.phase), CoordinatorLeft(s, w), LanesLeft(w.phase, w.lanes)
  {
    hide Inv, Next, IdleDone, RefusedSpoiled, Ended, Helps, Enabled, LanesLeft, CoordinatorLeft;
    InvShape(s, w);
    var a := NeverStuck(s, w);
    var v := Next(s, w, a);
    HelpEnds(s, w, a);
    NextInv(s, w, a);
    NextIdle(s, w, a);
    NextSpoils(s, w, a);
    if Waits(v.phase) {
      actions, worlds := HelpOn(s, v);
    } else {
      actions, worlds := [], [v];
    }
    HelpFirst(s, w, a, actions, worlds);
    actions, worlds := [a] + actions, [w] + worlds;
  }

  /** From every state of every interleaving in which a checkpoint is open, the parties it
      waits for can bring it to its end: it is completed unless a worker is gone or an
      engine refused. */
  lemma {:induction false} CanComplete(s: Setup, actions: seq<Action>, worlds: seq<World>, k: nat)
      returns (more: seq<Action>, tail: seq<World>)
    requires IsRun(s, actions, worlds) && k < |worlds| && Waits(worlds[k].phase)
    ensures IsHelp(s, more, tail) && tail[0] == worlds[k] && Ended(tail[|tail| - 1])
  {
    hide Inv, IsRun, IdleDone, RefusedSpoiled;
    RunInv(s, actions, worlds, k);
    RunIdle(s, actions, worlds, k);
    RunSpoils(s, actions, worlds, k);
    more, tail := HelpOn(s, worlds[k]);
  }
}
