/** Queue-local lanes and their two-phase checkpoint as a state machine: one worker per
    lane, one coordinator, FIFO queues between them, every interleaving of their steps. */
module LaneProtocol {
  import opened Options
  import opened WindowRing
  import opened QuerySpec
  import opened WindowMeaning
  import opened LaneEngine
  import opened Reports

  // --- times that may be absent ---

  function Later(a: Option<nat>, b: Option<nat>): Option<nat> {
    match a
    case None => b
    case Some(x) => if b.Some? && b.value > x then b else a
  }

  predicate AtMost(a: Option<nat>, b: Option<nat>) {
    a.None? || (b.Some? && a.value <= b.value)
  }

  // --- the pieces ---

  /** `round` names the reply channel a command carries. */
  datatype Control = Pause(round: nat)
                   | Checkpoint(round: nat, watermark: Option<nat>, includeCurrent: bool, finish: bool)
                   | Shutdown

  datatype Failure = CheckpointBeforePause | TwoPauses | Refused | Disconnected

  /** Where a worker's loop stands. */
  datatype Pc = Top | Receiving | Handling(event: FlowEvent, done: nat) | Polling(done: nat) | Idle
              | Paused(round: nat) | Exited | Failed(reason: Failure)

  /** `sent`, `handled`, `logs`, `floor` and `spoiled` are history: what reached the lane,
      what its engine took in, how each query logged it, the last watermark it reported
      at, and whether its engine ever refused a checkpoint. */
  datatype Lane = Lane(queue: seq<FlowEvent>, open_: bool, controls: seq<Control>, pc: Pc, dataOpen: bool,
                       engine: seq<Query>, maxTs: Option<nat>,
                       sent: seq<FlowEvent>, handled: seq<FlowEvent>, logs: seq<seq<Arrival>>, floor: Option<nat>,
                       spoiled: bool)

  datatype Ack = Ack(lane: nat, maxTs: Option<nat>, handled: nat)

  /** `rings` and `logs` are history: where every ring stood and what it had logged. */
  datatype Report = Report(lane: nat, ok: bool, completed: seq<seq<Window>>, current: seq<Option<Window>>,
                           rings: seq<seq<nat>>, logs: seq<seq<Arrival>>)

  datatype Problem = LaneMismatch | Unaligned | WorkerGone | ReportRefused

  datatype Phase = Ready | Draining | Pausing(next: nat) | Acking | Checkpointing(next: nat, watermark: Option<nat>)
                 | Reporting(watermark: Option<nat>) | Finished | Errored(problem: Problem) | Dropped

  /** One published checkpoint: for every query the completed windows of all lanes and, when
      asked for, their open ones, which are then merged by bounds. `logs` and `acked` are
      history: what each lane had logged, and the acknowledgements it answers. */
  datatype Publication = Publication(since: Option<nat>, upto: Option<nat>, finish: bool, windows: seq<seq<Window>>,
                                     current: Option<seq<seq<Window>>>, logs: seq<seq<seq<Arrival>>>, acked: seq<Ack>)

  datatype World = World(lanes: seq<Lane>, phase: Phase, round: nat, finish: bool, includeCurrent: bool, taken: nat,
                         acks: seq<Ack>, reports: seq<Report>, drained: seq<Ack>,
                         published: seq<Publication>, floor: Option<nat>)

  datatype Setup = Setup(plans: Plans, lanes: nat, batch: nat, initial: nat)

  // --- engines over all queries ---

  predicate CanProcessAll(plans: Plans, engine: seq<Query>, e: FlowEvent)
    requires |engine| == |plans|
  {
    forall q :: 0 <= q < |plans| ==> CanProcess(plans[q], engine[q], e)
  }

  function ProcessAll(plans: Plans, engine: seq<Query>, e: FlowEvent): seq<Query>
    requires |engine| == |plans|
  {
    seq(|plans|, q requires 0 <= q < |plans| => Process(plans[q], engine[q], e))
  }

  function LogAll(plans: Plans, after: seq<Query>, e: FlowEvent, logs: seq<seq<Arrival>>): seq<seq<Arrival>>
    requires |after| == |plans| == |logs|
  {
    seq(|plans|, q requires 0 <= q < |plans| => if after[q].ring != [] then LogEvent(plans[q], after[q], e, logs[q]) else logs[q])
  }

  predicate CanAdvanceAll(plans: Plans, engine: seq<Query>, ts: nat)
    requires |engine| == |plans|
  {
    forall q :: 0 <= q < |plans| ==> CanAdvance(plans[q], engine[q], BucketStart(plans[q], ts))
  }

  function AdvanceAll(plans: Plans, engine: seq<Query>, ts: nat): seq<Query>
    requires |engine| == |plans|
  {
    seq(|plans|, q requires 0 <= q < |plans| => Advance(plans[q], engine[q], BucketStart(plans[q], ts)))
  }

  predicate CanFinishAll(plans: Plans, engine: seq<Query>)
    requires |engine| == |plans|
  {
    forall q :: 0 <= q < |plans| ==> CanFinish(plans[q], engine[q])
  }

  function FinishAll(plans: Plans, engine: seq<Query>): seq<Query>
    requires |engine| == |plans|
  {
    seq(|plans|, q requires 0 <= q < |plans| => Finish(plans[q], engine[q]))
  }

  function DrainAll(engine: seq<Query>): seq<Query> {
    seq(|engine|, q requires 0 <= q < |engine| => Drain(engine[q]))
  }

  function EmittedAll(engine: seq<Query>): seq<seq<Window>> {
    seq(|engine|, q requires 0 <= q < |engine| => engine[q].emitted)
  }

  /** A query's open window, once it has one. */
  function OpenWindowOf(c: Plan, q: Query): Option<Window> {
    if q.ring == [] then None else Some(TrailingWindow(c, q.ring))
  }

  function CurrentAll(plans: Plans, engine: seq<Query>): seq<Option<Window>>
    requires |engine| == |plans|
  {
    seq(|plans|, q requires 0 <= q < |plans| => OpenWindowOf(plans[q], engine[q]))
  }

  /** Where every bucket of a ring starts. */
  function Starts(ring: seq<Bucket>): (r: seq<nat>)
    ensures |r| == |ring| && forall i :: 0 <= i < |ring| ==> r[i] == ring[i].start
  {
    seq(|ring|, i requires 0 <= i < |ring| => ring[i].start)
  }

  function RingsAll(engine: seq<Query>): seq<seq<nat>> {
    seq(|engine|, q requires 0 <= q < |engine| => Starts(engine[q].ring))
  }

  datatype Built = Built(engine: seq<Query>, report: Report)

  /** Advance to the watermark, finish when asked, drain, and note the open windows. */
  function BuildReport(plans: Plans, lane: nat, engine: seq<Query>, logs: seq<seq<Arrival>>, watermark: Option<nat>,
                       includeCurrent: bool, finish: bool): Built
    requires |engine| == |plans|
  {
    if watermark.Some? && !CanAdvanceAll(plans, engine, watermark.value) then
      Built(engine, Report(lane, false, [], [], [], []))
    else
      var advanced := if watermark.Some? then AdvanceAll(plans, engine, watermark.value) else engine;
      if finish && !CanFinishAll(plans, advanced) then Built(advanced, Report(lane, false, [], [], [], []))
      else
        var ended := if finish then FinishAll(plans, advanced) else advanced;
        Built(DrainAll(ended),
              Report(lane, true, EmittedAll(ended), if includeCurrent then CurrentAll(plans, ended) else [], RingsAll(ended), logs))
  }

  // --- one step of a worker ---

  datatype Sent = Nothing | SentAck(ack: Ack) | SentReport(report: Report) | SentDrained(ack: Ack)

  datatype Moved = Moved(lane: Lane, sent: Sent)

  predicate Dead(l: Lane) {
    l.pc.Exited? || l.pc.Failed?
  }

  /** Whether the coordinator still holds the receiver of this round's replies. */
  predicate Receives(w: World, round: nat) {
    round == w.round && (w.phase.Pausing? || w.phase.Acking? || w.phase.Checkpointing? || w.phase.Reporting?)
  }

  /** Whether a worker can take a step at all: it waits on an empty channel otherwise. */
  predicate CanStep(w: World, l: Lane) {
    match l.pc
    case Exited => false
    case Failed(_) => false
    case Idle => l.controls != [] || w.phase.Dropped?
    case Paused(_) => l.controls != [] || w.phase.Dropped?
    case _ => true
  }

  function HandleControl(w: World, i: nat, l: Lane): Moved
    requires l.controls != []
  {
    var rest := l.(controls := l.controls[1..]);
    match l.controls[0]
    case Shutdown => Moved(rest.(pc := Exited), Nothing)
    case Checkpoint(_, _, _, _) => Moved(rest.(pc := Failed(CheckpointBeforePause)), Nothing)
    case Pause(round) =>
      if Receives(w, round) then Moved(rest.(pc := Paused(round)), SentAck(Ack(i, l.maxTs, |l.handled|)))
      else Moved(rest.(pc := Failed(Disconnected)), Nothing)
  }

  /** The data channel turned out closed and empty. */
  function ReportDrained(w: World, i: nat, l: Lane): Moved {
    if w.phase.Dropped? then Moved(l.(dataOpen := false, pc := Failed(Disconnected)), SentDrained(Ack(i, l.maxTs, |l.handled|)))
    else Moved(l.(dataOpen := false, pc := Top), SentDrained(Ack(i, l.maxTs, |l.handled|)))
  }

  function HandleEvent(s: Setup, l: Lane, e: FlowEvent, done: nat): Lane
    requires |l.engine| == |s.plans| == |l.logs|
  {
    if CanProcessAll(s.plans, l.engine, e) then
      var engine := ProcessAll(s.plans, l.engine, e);
      l.(engine := engine, logs := LogAll(s.plans, engine, e, l.logs), maxTs := Later(l.maxTs, Some(e.ts)),
         handled := l.handled + [e], pc := if done + 1 == s.batch then Top else Polling(done + 1))
    else l.(pc := Failed(Refused))
  }

  function TakeCheckpoint(s: Setup, w: World, i: nat, l: Lane): Moved
    requires l.controls != [] && |l.engine| == |s.plans|
  {
    var rest := l.(controls := l.controls[1..]);
    match l.controls[0]
    case Shutdown => Moved(rest.(pc := Exited), Nothing)
    case Pause(_) => Moved(rest.(pc := Failed(TwoPauses)), Nothing)
    case Checkpoint(round, watermark, includeCurrent, finish) =>
      var built := BuildReport(s.plans, i, l.engine, l.logs, watermark, includeCurrent, finish);
      var after := rest.(engine := built.engine, floor := if built.report.ok then Later(l.floor, watermark) else l.floor,
                         spoiled := l.spoiled || !built.report.ok);
      if Receives(w, round) then Moved(after.(pc := if finish then Exited else Top), SentReport(built.report))
      else Moved(after.(pc := Failed(Disconnected)), Nothing)
  }

  function WorkerStep(s: Setup, w: World, i: nat): Moved
    requires i < |w.lanes| && CanStep(w, w.lanes[i]) && |w.lanes[i].engine| == |s.plans| == |w.lanes[i].logs|
  {
    var l := w.lanes[i];
    match l.pc
    case Top =>
      if l.controls != [] then HandleControl(w, i, l)
      else if w.phase.Dropped? then Moved(l.(pc := Exited), Nothing)
      else Moved(l.(pc := if l.dataOpen then Receiving else Idle), Nothing)
    case Idle =>
      if l.controls != [] then HandleControl(w, i, l) else Moved(l.(pc := Failed(Disconnected)), Nothing)
    case Receiving =>
      if l.queue != [] then Moved(l.(queue := l.queue[1..], pc := Handling(l.queue[0], 0)), Nothing)
      else if l.open_ then Moved(l.(pc := Top), Nothing)
      else ReportDrained(w, i, l)
    case Handling(e, done) => Moved(HandleEvent(s, l, e, done), Nothing)
    case Polling(done) =>
      if l.queue != [] then Moved(l.(queue := l.queue[1..], pc := Handling(l.queue[0], done)), Nothing)
      else if l.open_ then Moved(l.(pc := Top), Nothing)
      else ReportDrained(w, i, l)
    case Paused(_) =>
      if l.controls != [] then TakeCheckpoint(s, w, i, l) else Moved(l.(pc := Exited), Nothing)
  }

  function Deliver(w: World, i: nat, m: Moved): World
    requires i < |w.lanes|
  {
    var moved := w.(lanes := w.lanes[i := m.lane]);
    match m.sent
    case Nothing => moved
    case SentAck(ack) => moved.(acks := w.acks + [ack])
    case SentReport(report) => moved.(reports := w.reports + [report])
    case SentDrained(ack) => moved.(drained := w.drained + [ack])
  }

  // --- one step of the coordinator ---

  /** Sorting the replies by lane gives exactly lane 0, lane 1, ... */
  predicate LanesExact(lanes: nat, replies: seq<nat>) {
    |replies| == lanes && forall i :: 0 <= i < lanes ==> i in replies
  }

  function AckLanes(acks: seq<Ack>): (r: seq<nat>)
    ensures |r| == |acks| && forall j :: 0 <= j < |acks| ==> r[j] == acks[j].lane
  {
    seq(|acks|, j requires 0 <= j < |acks| => acks[j].lane)
  }

  function ReportLanes(reports: seq<Report>): (r: seq<nat>)
    ensures |r| == |reports| && forall j :: 0 <= j < |reports| ==> r[j] == reports[j].lane
  {
    seq(|reports|, j requires 0 <= j < |reports| => reports[j].lane)
  }

  function Watermark(acks: seq<Ack>): Option<nat> {
    if acks == [] then None else Later(Watermark(acks[..|acks| - 1]), acks[|acks| - 1].maxTs)
  }

  /** Two lanes disagree on the open window of a query. */
  predicate UnalignedCurrent(reports: seq<Report>) {
    exists i, j, q :: 0 <= i < |reports| && 0 <= j < |reports| && 0 <= q < |reports[i].current| && q < |reports[j].current|
      && reports[i].current[q].Some? && reports[j].current[q].Some?
      && BoundsAt(reports[i].current[q].value) != BoundsAt(reports[j].current[q].value)
  }

  function BoundsAt(w: Window): Bounds {
    (w.start, w.end)
  }

  datatype Kind = Completed | Open

  /** The windows of one kind that a report holds for a query. */
  function WindowsIn(r: Report, kind: Kind, q: nat): seq<Window> {
    match kind
    case Completed => if q < |r.completed| then r.completed[q] else []
    case Open => if q < |r.current| && r.current[q].Some? then [r.current[q].value] else []
  }

  /** All lanes' windows of one query. */
  function Together(reports: seq<Report>, kind: Kind, q: nat): seq<Window> {
    if reports == [] then []
    else Together(reports[..|reports| - 1], kind, q) + WindowsIn(reports[|reports| - 1], kind, q)
  }

  function TogetherAll(s: Setup, reports: seq<Report>, kind: Kind): (r: seq<seq<Window>>)
    ensures |r| == |s.plans| && forall q :: 0 <= q < |r| ==> r[q] == Together(reports, kind, q)
  {
    seq(|s.plans|, q requires 0 <= q < |s.plans| => Together(reports, kind, q))
  }

  function ReportedLogs(reports: seq<Report>): (r: seq<seq<seq<Arrival>>>)
    ensures |r| == |reports| && forall j :: 0 <= j < |reports| ==> r[j] == reports[j].logs
  {
    seq(|reports|, j requires 0 <= j < |reports| => reports[j].logs)
  }

  /** Where the first report of this lane stands in the list. */
  function Find(reports: seq<Report>, lane: nat): (j: nat)
    ensures j <= |reports| && (j < |reports| ==> reports[j].lane == lane)
    ensures lane in ReportLanes(reports) ==> j < |reports|
  {
    if reports == [] then 0
    else
      var j := Find(reports[..|reports| - 1], lane);
      assert ReportLanes(reports) == ReportLanes(reports[..|reports| - 1]) + [reports[|reports| - 1].lane];
      if j < |reports| - 1 then j else if reports[|reports| - 1].lane == lane then |reports| - 1 else |reports|
  }

  /** The reports in lane order. */
  function ByLane(reports: seq<Report>, lanes: nat): (r: seq<Report>)
    requires LanesExact(lanes, ReportLanes(reports))
    ensures |r| == lanes && forall i :: 0 <= i < lanes ==> r[i] in reports && r[i].lane == i
  {
    seq(lanes, i requires 0 <= i < lanes => reports[Find(reports, i)])
  }

  function Publish(s: Setup, w: World, watermark: Option<nat>, reports: seq<Report>): World {
    if UnalignedCurrent(reports) then w.(phase := Errored(Unaligned))
    else
      var current := if w.includeCurrent then Some(TogetherAll(s, reports, Open)) else None;
      var publication := Publication(w.floor, Later(w.floor, watermark), w.finish, TogetherAll(s, reports, Completed), current,
                                     ReportedLogs(reports), w.acks);
      w.(published := w.published + [publication],
         floor := Later(w.floor, watermark),
         phase := if w.finish then Finished else Ready)
  }

  function StartPause(w: World): World {
    w.(phase := Pausing(0), round := w.round + 1, taken := 0, acks := [], reports := [])
  }

  function Command(w: World, i: nat, c: Control): World
    requires i < |w.lanes|
  {
    w.(lanes := w.lanes[i := w.lanes[i].(controls := w.lanes[i].controls + [c])])
  }

  predicate CanCoordinate(s: Setup, w: World) {
    match w.phase
    case Draining => w.taken == s.lanes || w.taken < |w.drained|
    case Pausing(_) => true
    case Acking => w.taken == s.lanes || w.taken < |w.acks|
    case Checkpointing(_, _) => true
    case Reporting(_) => w.taken == s.lanes || w.taken < |w.reports|
    case _ => false
  }

  function Coordinate(s: Setup, w: World): World
    requires CanCoordinate(s, w) && |w.lanes| == s.lanes
    requires w.taken <= |w.drained| || !w.phase.Draining?
    requires w.taken <= |w.acks| || !w.phase.Acking?
    requires w.taken <= |w.reports| || !w.phase.Reporting?
  {
    match w.phase
    case Draining =>
      if w.taken < s.lanes then w.(taken := w.taken + 1)
      else if LanesExact(s.lanes, AckLanes(w.drained[..w.taken])) then StartPause(w)
      else w.(phase := Errored(LaneMismatch))
    case Pausing(k) =>
      if k >= s.lanes then w.(phase := Acking, taken := 0)
      else if Dead(w.lanes[k]) then w.(phase := Errored(WorkerGone))
      else Command(w, k, Pause(w.round)).(phase := Pausing(k + 1))
    case Acking =>
      if w.taken < s.lanes then w.(taken := w.taken + 1)
      else if LanesExact(s.lanes, AckLanes(w.acks[..w.taken])) then w.(phase := Checkpointing(0, Watermark(w.acks[..w.taken])))
      else w.(phase := Errored(LaneMismatch))
    case Checkpointing(k, watermark) =>
      if k >= s.lanes then w.(phase := Reporting(watermark), taken := 0)
      else if Dead(w.lanes[k]) then w.(phase := Errored(WorkerGone))
      else Command(w, k, Checkpoint(w.round, watermark, w.includeCurrent, w.finish)).(phase := Checkpointing(k + 1, watermark))
    case Reporting(watermark) =>
      if w.taken < s.lanes then
        if w.reports[w.taken].ok then w.(taken := w.taken + 1) else w.(phase := Errored(ReportRefused))
      else if LanesExact(s.lanes, ReportLanes(w.reports[..w.taken])) then Publish(s, w, watermark, ByLane(w.reports[..w.taken], s.lanes))
      else w.(phase := Errored(LaneMismatch))
  }

  // --- the whole system ---

  datatype Action = Send(lane: nat, event: FlowEvent) | Close(lane: nat) | Work(lane: nat)
                  | Start(finish: bool, includeCurrent: bool) | Continue | GiveUp | Drop

  predicate Enabled(s: Setup, w: World, a: Action)
  {
    match a
    case Send(i, _) => i < |w.lanes| && w.lanes[i].open_
    case Close(i) => i < |w.lanes| && w.lanes[i].open_
    case Work(i) => i < |w.lanes| && CanStep(w, w.lanes[i])
    case Start(_, _) => w.phase.Ready?
    case Continue => CanCoordinate(s, w)
    case GiveUp => (w.phase.Ready? || w.phase.Draining? || w.phase.Acking? || w.phase.Reporting?)
      && exists i :: 0 <= i < |w.lanes| && Dead(w.lanes[i])
    case Drop => w.phase.Ready? || w.phase.Finished? || w.phase.Errored?
  }

  /** What the step functions need of a world; every reachable one has it. */
  predicate Shaped(s: Setup, w: World) {
    && |w.lanes| == s.lanes
    && (forall i :: 0 <= i < |w.lanes| ==> |w.lanes[i].engine| == |s.plans| == |w.lanes[i].logs|)
    && (w.phase.Draining? ==> w.taken <= |w.drained|)
    && (w.phase.Acking? ==> w.taken <= |w.acks|)
    && (w.phase.Reporting? ==> w.taken <= |w.reports|)
  }

  function Next(s: Setup, w: World, a: Action): World
    requires Shaped(s, w) && Enabled(s, w, a)
  {
    match a
    case Send(i, e) =>
      w.(lanes := w.lanes[i := w.lanes[i].(queue := w.lanes[i].queue + [e], sent := w.lanes[i].sent + [e])])
    case Close(i) => w.(lanes := w.lanes[i := w.lanes[i].(open_ := false)])
    case Work(i) => Deliver(w, i, WorkerStep(s, w, i))
    case Start(finish, includeCurrent) =>
      var asked := w.(finish := finish, includeCurrent := includeCurrent, taken := 0);
      if finish then asked.(phase := Draining) else StartPause(asked)
    case Continue => Coordinate(s, w)
    case GiveUp => w.(phase := Errored(WorkerGone))
    case Drop =>
      w.(phase := Dropped,
         lanes := seq(|w.lanes|, i requires 0 <= i < |w.lanes| =>
           w.lanes[i].(controls := w.lanes[i].controls + [Shutdown])))
  }

  /** Every lane's engine is advanced to the same pre-capture time before it starts. */
  function FirstLane(s: Setup): Lane {
    Lane([], true, [], Top, true,
         seq(|s.plans|, q requires 0 <= q < |s.plans| => Advance(s.plans[q], Query([], [], 0), BucketStart(s.plans[q], s.initial))),
         None, [], [], seq(|s.plans|, _ => []), None, false)
  }

  function Initial(s: Setup): World {
    World(seq(s.lanes, _ => FirstLane(s)), Ready, 0, false, false, 0, [], [], [], [], None)
  }
}
