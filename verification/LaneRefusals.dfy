/** When a lane may refuse: only when the windows a step would complete do not fit. */
module LaneRefusals {
  import opened GapRefinement
  import opened LaneBarrier
  import opened LaneEngine
  import opened LaneInvariants
  import opened LaneProtocol
  import opened Options
  import opened QuerySpec
  import opened Reports
  import opened WindowMeaning
  import opened WindowRing

  /** Advancing would leave more completed windows pending than there is room for. */
  ghost predicate AdvanceOverflows(c: Plan, q: Query, ts: nat) {
    |Advance(c, q, BucketStart(c, ts)).emitted| > c.capacity
  }

  /** Closing the open window would. */
  ghost predicate FinishOverflows(c: Plan, q: Query) {
    |q.emitted| + 1 > c.capacity
  }

  lemma {:induction false} AdvanceRoom(c: Plan, q: Query, ts: nat)
    requires Contiguous(c, q.ring)
    ensures CanAdvance(c, q, BucketStart(c, ts)) <==> !AdvanceOverflows(c, q, ts)
  {
    hide BucketStart;
    FastRefinesSlow(c, q.ring, BucketStart(c, ts));
  }

  lemma {:induction false} RingsOk(s: Setup, l: Lane, q: nat)
    requires EngineOk(s, l) && q < |s.plans|
    ensures l.engine[q].ring != [] && Contiguous(s.plans[q], l.engine[q].ring)
  {
    hide Stand, First, EndsBetween, ReportsLog, Logged, WindowStart, InBucket;
    assert QueryOk(s.plans[q], First(s, q), Stand(s, q, l.floor), Stand(s, q, Later(l.maxTs, l.floor)), l.engine[q], l.logs[q]);
  }

  /** An event fails its lane exactly when it matches a query that it would overflow. */
  lemma {:induction false} EventRefusedExactly(s: Setup, l: Lane, e: FlowEvent, done: nat)
    requires EngineOk(s, l)
    ensures HandleEvent(s, l, e, done).pc == Failed(Refused)
       <==> exists q :: 0 <= q < |s.plans| && s.plans[q].filter(e) && AdvanceOverflows(s.plans[q], l.engine[q], e.ts)
    ensures HandleEvent(s, l, e, done).pc != Failed(Refused) ==> HandleEvent(s, l, e, done).handled == l.handled + [e]
  {
    hide Advance, BucketStart, EngineOk, AdvanceOverflows, CanAdvance, ProcessAll, LogAll;
    EngineSize(s, l);
    forall q | 0 <= q < |s.plans|
      ensures CanProcess(s.plans[q], l.engine[q], e)
         <==> !(s.plans[q].filter(e) && AdvanceOverflows(s.plans[q], l.engine[q], e.ts))
    {
      RingsOk(s, l, q);
      AdvanceRoom(s.plans[q], l.engine[q], e.ts);
    }
    if CanProcessAll(s.plans, l.engine, e) {
      assert HandleEvent(s, l, e, done).pc != Failed(Refused);
    } else {
      var q :| 0 <= q < |s.plans| && !CanProcess(s.plans[q], l.engine[q], e);
      assert s.plans[q].filter(e) && AdvanceOverflows(s.plans[q], l.engine[q], e.ts);
    }
  }

  lemma {:induction false} EngineSize(s: Setup, l: Lane)
    requires EngineOk(s, l)
    ensures |l.engine| == |s.plans| == |l.logs|
  {
    hide QueryOk;
  }

  /** A query cannot be advanced to the watermark, or not be finished after that. */
  ghost predicate Overflows(c: Plan, q: Query, watermark: Option<nat>, finish: bool) {
    || (watermark.Some? && AdvanceOverflows(c, q, watermark.value))
    || (finish && FinishOverflows(c, if watermark.Some? then Advance(c, q, BucketStart(c, watermark.value)) else q))
  }

  /** A checkpoint is refused by a lane exactly when one of its queries would overflow; without
      a watermark and not at the end it never is. */
  lemma {:induction false} ReportRefusedExactly(s: Setup, i: nat, l: Lane, watermark: Option<nat>, includeCurrent: bool, finish: bool)
    requires EngineOk(s, l)
    ensures |l.engine| == |s.plans|
    ensures var b := BuildReport(s.plans, i, l.engine, l.logs, watermark, includeCurrent, finish);
      !b.report.ok <==> exists q :: 0 <= q < |s.plans| && Overflows(s.plans[q], l.engine[q], watermark, finish)
    ensures watermark.None? && !finish ==> BuildReport(s.plans, i, l.engine, l.logs, watermark, includeCurrent, finish).report.ok
  {
    hide Advance, BucketStart, EngineOk, AdvanceOverflows, CanAdvance, DrainAll, FinishAll, EmittedAll, CurrentAll, RingsAll;
    EngineSize(s, l);
    var advanced := if watermark.Some? then AdvanceAll(s.plans, l.engine, watermark.value) else l.engine;
    forall q | 0 <= q < |s.plans|
      ensures watermark.Some? ==>
        (CanAdvance(s.plans[q], l.engine[q], BucketStart(s.plans[q], watermark.value))
         <==> !AdvanceOverflows(s.plans[q], l.engine[q], watermark.value))
      ensures CanFinish(s.plans[q], advanced[q]) <==> !FinishOverflows(s.plans[q], advanced[q])
    {
      RingsOk(s, l, q);
      if watermark.Some? {
        AdvanceRoom(s.plans[q], l.engine[q], watermark.value);
        StaysOpen(s.plans[q], l.engine[q], watermark.value);
      }
    }
    RefusalIs(s, i, l, watermark, includeCurrent, finish);
  }

  lemma {:induction false} StaysOpen(c: Plan, q: Query, ts: nat)
    requires q.ring != []
    ensures Advance(c, q, BucketStart(c, ts)).ring != []
  {
    hide BucketStart;
  }

  lemma {:induction false} RefusalIs(s: Setup, i: nat, l: Lane, watermark: Option<nat>, includeCurrent: bool, finish: bool)
    requires |l.engine| == |s.plans|
    requires forall q :: 0 <= q < |s.plans| && watermark.Some? ==>
      (CanAdvance(s.plans[q], l.engine[q], BucketStart(s.plans[q], watermark.value))
       <==> !AdvanceOverflows(s.plans[q], l.engine[q], watermark.value))
    requires var advanced := if watermark.Some? then AdvanceAll(s.plans, l.engine, watermark.value) else l.engine;
      forall q :: 0 <= q < |s.plans| ==> (CanFinish(s.plans[q], advanced[q]) <==> !FinishOverflows(s.plans[q], advanced[q]))
    ensures var b := BuildReport(s.plans, i, l.engine, l.logs, watermark, includeCurrent, finish);
      !b.report.ok <==> exists q :: 0 <= q < |s.plans| && Overflows(s.plans[q], l.engine[q], watermark, finish)
  {
    hide Advance, BucketStart, AdvanceOverflows, CanAdvance, DrainAll, FinishAll, EmittedAll, CurrentAll, RingsAll,
      CanFinish, FinishOverflows;
    var b := BuildReport(s.plans, i, l.engine, l.logs, watermark, includeCurrent, finish);
    var advanced := if watermark.Some? then AdvanceAll(s.plans, l.engine, watermark.value) else l.engine;
    if q :| 0 <= q < |s.plans| && Overflows(s.plans[q], l.engine[q], watermark, finish) {
      if watermark.Some? && CanAdvanceAll(s.plans, l.engine, watermark.value) {
        assert CanAdvance(s.plans[q], l.engine[q], BucketStart(s.plans[q], watermark.value));
      }
      assert !b.report.ok;
    }
  }

  /** What the lane has to do next would leave more windows of this query pending than fit. */
  ghost predicate RefusedOver(c: Plan, l: Lane, q: Query) {
    || (l.pc.Handling? && c.filter(l.pc.event) && AdvanceOverflows(c, q, l.pc.event.ts))
    || (l.controls != [] && l.controls[0].Checkpoint? && Overflows(c, q, l.controls[0].watermark, l.controls[0].finish))
  }

  /** In every run, a step makes a lane refuse only over capacity: an event it has in hand, or
      a checkpoint it was sent, would leave more windows of a query pending than fit. */
  lemma {:induction false} RefusesOnlyFull(s: Setup, actions: seq<Action>, worlds: seq<World>, k: nat, i: nat)
    requires IsRun(s, actions, worlds) && k < |actions| && actions[k] == Work(i) && i < |worlds[k].lanes| == |worlds[k + 1].lanes|
    requires var l, m := worlds[k].lanes[i], worlds[k + 1].lanes[i];
      !l.spoiled && (m.spoiled || (m.pc == Failed(Refused) && !l.pc.Failed?))
    ensures var l := worlds[k].lanes[i];
      && |l.engine| == |s.plans|
      && exists q :: 0 <= q < |s.plans| && RefusedOver(s.plans[q], l, l.engine[q])
  {
    hide Stage, ChannelsOk, PublishedOk, EngineOk, AdvanceOverflows, Overflows;
    RunInv(s, actions, worlds, k);
    var w, l := worlds[k], worlds[k].lanes[i];
    assert Steps(s, worlds[k], actions[k], worlds[k + 1]);
    assert LaneOk(s, l);
    RefusingStep(s, w, i);
    EngineSize(s, l);
    if l.pc.Handling? {
      EventRefusedExactly(s, l, l.pc.event, l.pc.done);
      var q :| 0 <= q < |s.plans| && s.plans[q].filter(l.pc.event) && AdvanceOverflows(s.plans[q], l.engine[q], l.pc.event.ts);
      assert RefusedOver(s.plans[q], l, l.engine[q]);
    } else {
      var c := l.controls[0];
      ReportRefusedExactly(s, i, l, c.watermark, c.includeCurrent, c.finish);
      var q :| 0 <= q < |s.plans| && Overflows(s.plans[q], l.engine[q], c.watermark, c.finish);
      assert RefusedOver(s.plans[q], l, l.engine[q]);
    }
  }

  lemma {:induction false} RefusingStep(s: Setup, w: World, i: nat)
    requires Shaped(s, w) && i < |w.lanes| && CanStep(w, w.lanes[i])
    requires var l, m := w.lanes[i], WorkerStep(s, w, i).lane;
      !l.spoiled && (m.spoiled || (m.pc == Failed(Refused) && !l.pc.Failed?))
    ensures var l := w.lanes[i];
      || (l.pc.Handling? && HandleEvent(s, l, l.pc.event, l.pc.done).pc == Failed(Refused))
      || (!l.pc.Handling? && l.controls != [] && l.controls[0].Checkpoint?
          && !BuildReport(s.plans, i, l.engine, l.logs, l.controls[0].watermark, l.controls[0].includeCurrent,
                          l.controls[0].finish).report.ok)
  {
    hide ProcessAll, LogAll, CanProcessAll, BuildReport;
  }
}
