/** Building one lane's report from its engine, and publishing the reports of all lanes. */
module LaneReports {
  import opened Engines
  import opened LaneEngine
  import opened LaneProtocol
  import opened Options
  import opened Reports
  import opened WindowRing
  import Q = QuerySpec

  ghost function PlansOf(engine: QueryEngine): (r: Plans)
    ensures |r| == |engine.queries|
  {
    seq(|engine.queries|, i requires 0 <= i < |engine.queries| => engine.queries[i].c)
  }

  ghost function ValuesOf(engine: QueryEngine): (r: seq<Q.Query>)
    reads engine, engine.queries
    ensures |r| == |engine.queries| && forall i :: 0 <= i < |r| ==> r[i] == engine.queries[i].Value()
  {
    seq(|engine.queries|, i requires 0 <= i < |engine.queries| reads engine, engine.queries => engine.queries[i].Value())
  }

  method AdvanceEngine(engine: QueryEngine, ts: nat) returns (ok: bool)
    requires engine.Valid()
    modifies engine.queries
    ensures engine.Valid() && ok == CanAdvanceAll(PlansOf(engine), old(ValuesOf(engine)), ts)
    ensures ValuesOf(engine) == if ok then AdvanceAll(PlansOf(engine), old(ValuesOf(engine)), ts) else old(ValuesOf(engine))
  {
    hide Q.Advance, BucketStart, Q.CanAdvance;
    ok := engine.AdvanceTo(ts);
  }

  method FinishEngine(engine: QueryEngine) returns (ok: bool)
    requires engine.Valid()
    modifies engine.queries
    ensures engine.Valid() && ok == CanFinishAll(PlansOf(engine), old(ValuesOf(engine)))
    ensures ValuesOf(engine) == if ok then FinishAll(PlansOf(engine), old(ValuesOf(engine))) else old(ValuesOf(engine))
  {
    hide Q.Finish, Q.CanFinish;
    ok := engine.Finish();
  }

  method DrainEngine(engine: QueryEngine) returns (completed: seq<seq<Window>>)
    requires engine.Valid()
    modifies engine.queries
    ensures engine.Valid() && completed == EmittedAll(old(ValuesOf(engine)))
    ensures ValuesOf(engine) == DrainAll(old(ValuesOf(engine)))
  {
    completed := engine.TakeWindowStates();
  }

  method OpenWindowsOf(engine: QueryEngine) returns (current: seq<Option<Window>>)
    requires engine.Valid()
    ensures current == CurrentAll(PlansOf(engine), ValuesOf(engine))
  {
    hide Q.TrailingWindow;
    current := engine.CurrentWindowStates();
  }

  lemma {:induction false} DrainKeepsCurrent(plans: Plans, engine: seq<Q.Query>)
    requires |engine| == |plans|
    ensures CurrentAll(plans, DrainAll(engine)) == CurrentAll(plans, engine)
  {
  }

  /** Advance, finish, drain and look at the open windows; a refusal stops where it is. */
  method BuildReport(lane: nat, engine: QueryEngine, watermark: Option<nat>, includeCurrent: bool, finish: bool,
                     ghost logs: seq<seq<WindowMeaning.Arrival>>)
    returns (ok: bool, completed: seq<seq<Window>>, current: seq<Option<Window>>)
    requires engine.Valid()
    modifies engine.queries
    ensures engine.Valid()
    ensures var b := LaneProtocol.BuildReport(PlansOf(engine), lane, old(ValuesOf(engine)), logs, watermark, includeCurrent, finish);
      && ValuesOf(engine) == b.engine
      && ok == b.report.ok && completed == b.report.completed && current == b.report.current
  {
    hide PlansOf, ValuesOf, AdvanceAll, FinishAll, DrainAll, EmittedAll, CurrentAll, CanAdvanceAll, CanFinishAll;
    ok, completed, current := false, [], [];
    if watermark.Some? {
      var advanced := AdvanceEngine(engine, watermark.value);
      if !advanced {
        return;
      }
    }
    if finish {
      var finished := FinishEngine(engine);
      if !finished {
        return;
      }
    }
    DrainKeepsCurrent(PlansOf(engine), ValuesOf(engine));
    completed := DrainEngine(engine);
    ok := true;
    if includeCurrent {
      current := OpenWindowsOf(engine);
    }
  }

  // --- publishing ---

  /** The first bounds seen for a query, and that no report so far has shown others. */
  ghost predicate BoundsSeen(reports: seq<Report>, seen: map<nat, Bounds>) {
    && (forall j, q: nat :: 0 <= j < |reports| && q < |reports[j].current| && reports[j].current[q].Some? ==>
          q in seen && seen[q] == BoundsAt(reports[j].current[q].value))
    && forall q: nat :: q in seen ==>
          exists j :: 0 <= j < |reports| && ShowsBounds(reports[j], q, seen[q])
  }

  predicate ShowsBounds(r: Report, q: nat, bounds: Bounds) {
    q < |r.current| && r.current[q].Some? && BoundsAt(r.current[q].value) == bounds
  }

  lemma {:induction false} SeenMeansAligned(reports: seq<Report>, seen: map<nat, Bounds>)
    requires BoundsSeen(reports, seen)
    ensures !UnalignedCurrent(reports)
  {
    forall i, j, q: nat | 0 <= i < |reports| && 0 <= j < |reports| && q < |reports[i].current| && q < |reports[j].current|
      && reports[i].current[q].Some? && reports[j].current[q].Some?
      ensures BoundsAt(reports[i].current[q].value) == BoundsAt(reports[j].current[q].value)
    {
      assert q in seen && seen[q] == BoundsAt(reports[i].current[q].value);
    }
  }

  /** Check one more report against the bounds seen so far. */
  method CheckCurrent(reports: seq<Report>, i: nat, seen: map<nat, Bounds>) returns (unaligned: bool, after: map<nat, Bounds>)
    requires i < |reports| && BoundsSeen(reports[..i], seen)
    ensures unaligned ==> UnalignedCurrent(reports)
    ensures !unaligned ==> BoundsSeen(reports[..i + 1], after)
  {
    hide BoundsSeen, UnalignedCurrent;
    var current := reports[i].current;
    after := seen;
    for q := 0 to |current|
      invariant forall p: nat :: p in seen ==> p in after && after[p] == seen[p]
      invariant forall p: nat :: p in after ==> p in seen || (p < q && ShowsBounds(reports[i], p, after[p]))
      invariant forall p: nat :: p < q && current[p].Some? ==> p in after && after[p] == BoundsAt(current[p].value)
    {
      if current[q].Some? {
        if q in after {
          if after[q] != BoundsAt(current[q].value) {
            SeenDiffers(reports, i, seen, q);
            return true, after;
          }
        } else {
          after := after[q := BoundsAt(current[q].value)];
        }
      }
    }
    unaligned := false;
    SeenMore(reports, i, seen, after);
  }

  lemma {:induction false} SeenDiffers(reports: seq<Report>, i: nat, seen: map<nat, Bounds>, q: nat)
    requires i < |reports| && BoundsSeen(reports[..i], seen) && q < |reports[i].current| && reports[i].current[q].Some?
    requires q in seen && seen[q] != BoundsAt(reports[i].current[q].value)
    ensures UnalignedCurrent(reports)
  {
    var j :| 0 <= j < i && ShowsBounds(reports[..i][j], q, seen[q]);
    assert BoundsAt(reports[j].current[q].value) != BoundsAt(reports[i].current[q].value);
  }

  lemma {:induction false} SeenMore(reports: seq<Report>, i: nat, seen: map<nat, Bounds>, after: map<nat, Bounds>)
    requires i < |reports| && BoundsSeen(reports[..i], seen)
    requires forall p: nat :: p in seen ==> p in after && after[p] == seen[p]
    requires forall p: nat :: p in after ==> p in seen || ShowsBounds(reports[i], p, after[p])
    requires forall p: nat :: p < |reports[i].current| && reports[i].current[p].Some? ==>
      p in after && after[p] == BoundsAt(reports[i].current[p].value)
    ensures BoundsSeen(reports[..i + 1], after)
  {
    hide BoundsAt;
    var more := reports[..i + 1];
    assert more == reports[..i] + [reports[i]];
    forall q: nat | q in after
      ensures exists j :: 0 <= j < |more| && ShowsBounds(more[j], q, after[q])
    {
      if q in seen {
        var j :| 0 <= j < i && ShowsBounds(reports[..i][j], q, seen[q]);
        assert ShowsBounds(more[j], q, after[q]);
      } else {
        assert ShowsBounds(more[i], q, after[q]);
      }
    }
  }

  ghost predicate AllMerged(reports: seq<Report>, kind: Kind, merged: seq<map<Bounds, multiset<FlowEvent>>>) {
    forall q: nat :: q < |merged| ==> Merged(Together(reports, kind, q), merged[q])
  }

  /** Merge one more report's windows of one kind, query by query. */
  method MergeReport(reports: seq<Report>, kind: Kind, i: nat, merged: seq<map<Bounds, multiset<FlowEvent>>>)
    returns (after: seq<map<Bounds, multiset<FlowEvent>>>)
    requires i < |reports| && AllMerged(reports[..i], kind, merged)
    ensures |after| == |merged| && AllMerged(reports[..i + 1], kind, after)
  {
    hide Merged, Together, WindowsIn;
    after := merged;
    for q := 0 to |merged|
      invariant |after| == |merged|
      invariant forall p: nat :: p < q ==> Merged(Together(reports[..i + 1], kind, p), after[p])
      invariant forall p: nat :: q <= p < |merged| ==> Merged(Together(reports[..i], kind, p), after[p])
    {
      TogetherSnoc(reports, kind, i, q);
      var one := MergeWindows(after[q], WindowsIn(reports[i], kind, q), Together(reports[..i], kind, q));
      after := after[q := one];
    }
  }

  /** Merge every query's completed windows, and then its open ones, by bounds, or find that
      two lanes disagree on an open window. */
  method PublishReports(queries: nat, reports: seq<Report>)
    returns (unaligned: bool, completed: seq<map<Bounds, multiset<FlowEvent>>>, current: seq<map<Bounds, multiset<FlowEvent>>>)
    ensures unaligned <==> UnalignedCurrent(reports)
    ensures !unaligned ==> |completed| == queries && AllMerged(reports, Completed, completed)
    ensures !unaligned ==> |current| == queries && AllMerged(reports, Open, current)
  {
    hide Merged, BoundsSeen, UnalignedCurrent, Together, AllMerged;
    completed, current := seq(queries, _ => map[]), seq(queries, _ => map[]);
    var seen: map<nat, Bounds> := map[];
    NothingSeen(reports, queries);
    for i := 0 to |reports|
      invariant |completed| == |current| == queries && BoundsSeen(reports[..i], seen)
      invariant AllMerged(reports[..i], Completed, completed) && AllMerged(reports[..i], Open, current)
    {
      completed := MergeReport(reports, Completed, i, completed);
      var bad, after := CheckCurrent(reports, i, seen);
      if bad {
        return true, completed, current;
      }
      seen := after;
      current := MergeReport(reports, Open, i, current);
    }
    assert reports[..|reports|] == reports;
    SeenMeansAligned(reports, seen);
    unaligned := false;
  }

  lemma {:induction false} NothingSeen(reports: seq<Report>, queries: nat)
    ensures BoundsSeen(reports[..0], map[])
    ensures AllMerged(reports[..0], Completed, seq(queries, _ => map[]))
    ensures AllMerged(reports[..0], Open, seq(queries, _ => map[]))
  {
    NothingMerged();
  }

  lemma {:induction false} TogetherSnoc(reports: seq<Report>, kind: Kind, i: nat, q: nat)
    requires i < |reports|
    ensures Together(reports[..i + 1], kind, q) == Together(reports[..i], kind, q) + WindowsIn(reports[i], kind, q)
  {
    assert reports[..i + 1][..i] == reports[..i];
  }
}
