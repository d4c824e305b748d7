/** Engines over several queries, and a set of engines fed shard by shard. */
module Engines {
  import opened Arithmetic
  import opened WindowRing
  import opened GapRefinement
  import opened Options
  import opened RunningQueries
  import opened Sharding
  import Q = QuerySpec

  class QueryEngine {
    const queries: seq<RunningQuery>
    var eventsProcessed: nat

    ghost predicate Valid()
      reads this, queries
    {
      && (forall i :: 0 <= i < |queries| ==> queries[i].Valid())
      && (forall i, j :: 0 <= i < j < |queries| ==> queries[i] != queries[j])
    }

    /** What every query holds, as values. */
    ghost predicate Holds(values: seq<Q.Query>)
      reads queries
    {
      |values| == |queries| && forall i :: 0 <= i < |queries| ==> queries[i].Value() == values[i]
    }

    constructor (queries: seq<RunningQuery>)
      requires forall i :: 0 <= i < |queries| ==> queries[i].Valid()
      requires forall i, j :: 0 <= i < j < |queries| ==> queries[i] != queries[j]
      ensures Valid() && this.queries == queries && eventsProcessed == 0
    {
      this.queries := queries;
      eventsProcessed := 0;
    }

    /** Whether every query has room for the windows this event would close. */
    method EnsureCanProcess(e: FlowEvent) returns (ok: bool)
      requires Valid()
      ensures ok <==> forall i :: 0 <= i < |queries| ==> Q.CanProcess(queries[i].c, queries[i].Value(), e)
    {
      for i := 0 to |queries|
        invariant forall j :: 0 <= j < i ==> Q.CanProcess(queries[j].c, queries[j].Value(), e)
      {
        var q := queries[i];
        if q.c.filter(e) && !q.CanEmit(q.WindowsClosedByAdvance(BucketStart(q.c, e.ts))) {
          return false;
        }
      }
      return true;
    }

    /** Handle one event in every query, or refuse it in all of them: a refused
        event changes no query and no counter, and can be retried. */
    method Process(e: FlowEvent) returns (ok: bool)
      requires Valid()
      modifies this, queries
      ensures Valid()
      ensures ok <==> forall i :: 0 <= i < |queries| ==> Q.CanProcess(queries[i].c, old(queries[i].Value()), e)
      ensures forall i :: 0 <= i < |queries| ==>
        queries[i].Value() == if ok then Q.Process(queries[i].c, old(queries[i].Value()), e) else old(queries[i].Value())
      ensures eventsProcessed == if ok then old(eventsProcessed) + 1 else old(eventsProcessed)
    {
      hide Q.Process, Q.CanProcess;
      var ready := EnsureCanProcess(e);
      if !ready {
        return false;
      }
      eventsProcessed := eventsProcessed + 1;
      for i := 0 to |queries|
        invariant forall j :: 0 <= j < |queries| ==> queries[j].Valid()
        invariant forall j :: 0 <= j < i ==> queries[j].Value() == Q.Process(queries[j].c, old(queries[j].Value()), e)
        invariant forall j :: i <= j < |queries| ==> queries[j].Value() == old(queries[j].Value())
        invariant eventsProcessed == old(eventsProcessed) + 1
      {
        var done := queries[i].Process(e);
      }
      return true;
    }

    /** Advance every query to a shared watermark, or none of them. */
    method AdvanceTo(ts: nat) returns (ok: bool)
      requires Valid()
      modifies queries
      ensures Valid()
      ensures ok <==> forall i :: 0 <= i < |queries| ==>
        Q.CanAdvance(queries[i].c, old(queries[i].Value()), BucketStart(queries[i].c, ts))
      ensures forall i :: 0 <= i < |queries| ==>
        queries[i].Value() == if ok then Q.Advance(queries[i].c, old(queries[i].Value()), BucketStart(queries[i].c, ts))
                              else old(queries[i].Value())
    {
      for i := 0 to |queries|
        invariant forall j :: 0 <= j < i ==> Q.CanAdvance(queries[j].c, queries[j].Value(), BucketStart(queries[j].c, ts))
      {
        var q := queries[i];
        if !q.CanEmit(q.WindowsClosedByAdvance(BucketStart(q.c, ts))) {
          return false;
        }
      }
      for i := 0 to |queries|
        invariant forall j :: 0 <= j < |queries| ==> queries[j].Valid()
        invariant forall j :: 0 <= j < i ==>
          queries[j].Value() == Q.Advance(queries[j].c, old(queries[j].Value()), BucketStart(queries[j].c, ts))
        invariant forall j :: i <= j < |queries| ==> queries[j].Value() == old(queries[j].Value())
      {
        var done := queries[i].AdvanceToBucket(BucketStart(queries[i].c, ts));
      }
      return true;
    }

    /** Close the trailing windows of every query, or of none. */
    method Finish() returns (ok: bool)
      requires Valid()
      modifies queries
      ensures Valid()
      ensures ok <==> forall i :: 0 <= i < |queries| ==> Q.CanFinish(queries[i].c, old(queries[i].Value()))
      ensures forall i :: 0 <= i < |queries| ==>
        queries[i].Value() == if ok then Q.Finish(queries[i].c, old(queries[i].Value())) else old(queries[i].Value())
    {
      for i := 0 to |queries|
        invariant forall j :: 0 <= j < i ==> Q.CanFinish(queries[j].c, queries[j].Value())
      {
        var q := queries[i];
        if q.buckets != [] && !q.CanEmit(1) {
          return false;
        }
      }
      for i := 0 to |queries|
        invariant forall j :: 0 <= j < |queries| ==> queries[j].Valid()
        invariant forall j :: 0 <= j < i ==> queries[j].Value() == Q.Finish(queries[j].c, old(queries[j].Value()))
        invariant forall j :: i <= j < |queries| ==> queries[j].Value() == old(queries[j].Value())
      {
        var done := queries[i].Finish();
      }
      return true;
    }

    /** Drain every query's completed windows, in emission order. */
    method TakeWindowStates() returns (drained: seq<seq<Window>>)
      requires Valid()
      modifies queries
      ensures Valid() && |drained| == |queries|
      ensures forall i :: 0 <= i < |queries| ==> drained[i] == old(queries[i].emitted)
      ensures forall i :: 0 <= i < |queries| ==> queries[i].Value() == Q.Drain(old(queries[i].Value()))
    {
      drained := [];
      for i := 0 to |queries|
        invariant |drained| == i && forall j :: 0 <= j < |queries| ==> queries[j].Valid()
        invariant forall j :: 0 <= j < i ==> drained[j] == old(queries[j].emitted)
        invariant forall j :: 0 <= j < i ==> queries[j].Value() == Q.Drain(old(queries[j].Value()))
        invariant forall j :: i <= j < |queries| ==> queries[j].Value() == old(queries[j].Value())
      {
        var windows := queries[i].TakeWindows();
        drained := drained + [windows];
      }
    }

    /** Every query's open window; nothing changes. */
    method CurrentWindowStates() returns (current: seq<Option<Window>>)
      requires Valid()
      ensures |current| == |queries|
      ensures forall i :: 0 <= i < |queries| ==> current[i] == CurrentOf(queries[i].c, queries[i].buckets)
    {
      current := [];
      for i := 0 to |queries|
        invariant |current| == i && forall j :: 0 <= j < i ==> current[j] == CurrentOf(queries[j].c, queries[j].buckets)
      {
        var window := queries[i].CurrentWindow();
        current := current + [window];
      }
    }
  }

  function CurrentOf(c: Config, ring: seq<Bucket>): Option<Window> {
    if ring == [] then None else Some(Q.TrailingWindow(c, ring))
  }

  /** The preflight is exact: an advance grows the pending list by what it counted. */
  lemma {:induction false} PreflightIsExact(c: Config, q: Q.Query, target: nat)
    requires c.Valid() && Contiguous(c, q.ring) && Aligned(c, target)
    ensures var r := Q.Advance(c, q, target);
      && q.emitted <= r.emitted
      && |r.emitted| == |q.emitted| + WindowsClosed(c, q.ring, target)
      && (Q.CanAdvance(c, q, target) <==> |r.emitted| <= c.capacity)
  {
    FastWindowCount(c, q.ring, target);
  }

  /** A finish pushes one window, the open one, and is refused only when it does not fit. */
  lemma {:induction false} FinishIsExact(c: Config, q: Q.Query)
    requires |q.emitted| <= c.capacity
    ensures var r := Q.Finish(c, q);
      && (Q.CanFinish(c, q) <==> |r.emitted| <= c.capacity)
      && |r.emitted| == |q.emitted| + (if q.ring == [] then 0 else 1) && q.emitted <= r.emitted
      && r.ring == q.ring && r.late == q.late
  {
  }

  /** An event that does not match is never refused and changes nothing; one that does is
      refused only when the windows its time closes do not fit. */
  lemma {:induction false} ProcessIsExact(c: Config, q: Q.Query, e: FlowEvent)
    requires c.Valid() && Contiguous(c, q.ring) && |q.emitted| <= c.capacity
    ensures Q.CanProcess(c, q, e) <==> |Q.Process(c, q, e).emitted| <= c.capacity
    ensures !c.filter(e) ==> Q.CanProcess(c, q, e) && Q.Process(c, q, e) == q
    ensures c.filter(e) ==> |Q.Process(c, q, e).emitted| == |q.emitted| + WindowsClosed(c, q.ring, BucketStart(c, e.ts))
  {
    hide Q.Advance, BucketStart;
    if c.filter(e) {
      PreflightIsExact(c, q, BucketStart(c, e.ts));
    }
  }

  /** A refused call succeeds after a drain: the planner gives every query room for
      as many windows as its window has buckets. */
  lemma {:induction false} DrainedAcceptsAnything(c: Config, q: Q.Query, e: FlowEvent, target: nat)
    requires c.Valid() && c.capacity == c.buckets
    ensures Q.CanProcess(c, Q.Drain(q), e) && Q.CanAdvance(c, Q.Drain(q), target) && Q.CanFinish(c, Q.Drain(q))
  {
  }
}
