/** The sharded engine: one batch dispatched to several engines, each seeded at
    the batch's earliest time and advanced to its watermark. */
module ShardedEngine {
  import opened WindowRing
  import opened RunningQueries
  import opened Sharding
  import opened Engines
  import opened ShardCalls
  import Q = QuerySpec

  /** Dispatch a batch to per-shard lists, keeping the order within each shard. */
  method Dispatch(batch: Batch, n: nat) returns (lists: seq<seq<FlowEvent>>)
    requires forall s :: s in batch ==> s.shard < n
    ensures |lists| == n && forall i :: 0 <= i < n ==> lists[i] == OwnEvents(batch, i)
  {
    lists := seq(n, _ => []);
    for t := 0 to |batch|
      invariant |lists| == n && forall i :: 0 <= i < n ==> lists[i] == OwnEvents(batch[..t], i)
    {
      var s := batch[t];
      assert batch[..t + 1][..t] == batch[..t];
      lists := lists[s.shard := lists[s.shard] + [s.event]];
    }
    assert batch[..|batch|] == batch;
  }

  /** The earliest and latest event times of a batch. */
  method TimeRange(batch: Batch) returns (earliest: nat, latest: nat)
    requires batch != []
    ensures earliest == Earliest(batch) && latest == Latest(batch)
  {
    earliest, latest := batch[0].event.ts, batch[0].event.ts;
    for t := 1 to |batch|
      invariant earliest == Earliest(batch[..t]) && latest == Latest(batch[..t])
    {
      assert batch[..t + 1][..t] == batch[..t];
      var ts := batch[t].event.ts;
      earliest := Min(earliest, ts);
      latest := Max(latest, ts);
    }
    assert batch[..|batch|] == batch;
  }

  /** What an engine that held `before` holds after these calls, query by query. */
  ghost function After(engine: QueryEngine, before: seq<Q.Query>, calls: seq<Call>): seq<Q.Query> {
    if |before| != |engine.queries| then before
    else seq(|before|, j requires 0 <= j < |before| => DoAll(engine.queries[j].c, before[j], calls))
  }

  /** Every query accepts every one of the calls in turn. */
  ghost predicate Accepts(engine: QueryEngine, before: seq<Q.Query>, calls: seq<Call>) {
    && |before| == |engine.queries|
    && forall j :: 0 <= j < |before| ==> CanAll(engine.queries[j].c, before[j], calls)
  }

  ghost predicate Allows(engine: QueryEngine, now: seq<Q.Query>, call: Call) {
    && |now| == |engine.queries|
    && forall j :: 0 <= j < |now| ==> Can(engine.queries[j].c, now[j], call)
  }

  /** The first `taken` of these calls are accepted, and they are all unless some query
      refuses the next one. */
  ghost predicate Stops(engine: QueryEngine, before: seq<Q.Query>, calls: seq<Call>, taken: nat) {
    && taken <= |calls| && Accepts(engine, before, calls[..taken])
    && (taken < |calls| ==> !Allows(engine, After(engine, before, calls[..taken]), calls[taken]))
  }

  lemma {:induction false} AfterNone(engine: QueryEngine, before: seq<Q.Query>)
    requires |before| == |engine.queries|
    ensures After(engine, before, []) == before && Accepts(engine, before, [])
  {
  }

  lemma {:induction false} AfterOne(engine: QueryEngine, before: seq<Q.Query>, calls: seq<Call>, t: nat)
    requires t < |calls| && Accepts(engine, before, calls[..t])
    ensures var now := After(engine, before, calls[..t]);
      && (Accepts(engine, before, calls[..t + 1]) <==> Allows(engine, now, calls[t]))
      && |now| == |engine.queries|
      && After(engine, before, calls[..t + 1])
         == seq(|now|, j requires 0 <= j < |now| => Do(engine.queries[j].c, now[j], calls[t]))
  {
    hide Do, Can;
    assert calls[..t + 1] == calls[..t] + [calls[t]];
    forall j | 0 <= j < |before|
      ensures var c := engine.queries[j].c;
        && DoAll(c, before[j], calls[..t + 1]) == Do(c, DoAll(c, before[j], calls[..t]), calls[t])
        && (CanAll(c, before[j], calls[..t + 1]) <==> Can(c, DoAll(c, before[j], calls[..t]), calls[t]))
    {
      assert CanAll(engine.queries[j].c, before[j], calls[..t]);
      DoNext(engine.queries[j].c, before[j], calls[..t], calls[t]);
    }
  }

  /** All calls were taken in exactly when every query accepts them all. */
  lemma {:induction false} StopsAtEnd(engine: QueryEngine, before: seq<Q.Query>, calls: seq<Call>, taken: nat)
    requires Stops(engine, before, calls, taken)
    ensures taken == |calls| <==> Accepts(engine, before, calls)
  {
    hide Do, Can;
    if taken < |calls| && Accepts(engine, before, calls) {
      AcceptsPrefix(engine, before, calls, taken);
    } else if taken == |calls| {
      assert calls[..taken] == calls;
    }
  }

  lemma {:induction false} AcceptsPrefix(engine: QueryEngine, before: seq<Q.Query>, calls: seq<Call>, t: nat)
    requires Accepts(engine, before, calls) && t < |calls|
    ensures Allows(engine, After(engine, before, calls[..t]), calls[t])
  {
    hide Do, Can;
    forall j | 0 <= j < |before|
      ensures Can(engine.queries[j].c, DoAll(engine.queries[j].c, before[j], calls[..t]), calls[t])
    {
      CanPrefix(engine.queries[j].c, before[j], calls, t);
    }
  }

  /** One shard's share of a batch that holds events: calls are made in order until one
      is refused. */
  method FeedEngine(engine: QueryEngine, events: seq<FlowEvent>, batchStart: nat, watermark: nat,
                    ghost before: seq<Q.Query>) returns (ok: bool, ghost taken: nat)
    requires engine.Valid() && engine.Holds(before)
    modifies engine, engine.queries
    ensures engine.Valid()
    ensures Stops(engine, before, Seeded(events, batchStart, watermark), taken)
    ensures engine.Holds(After(engine, before, Seeded(events, batchStart, watermark)[..taken]))
    ensures ok <==> taken == |events| + 2
    ensures ok ==> engine.eventsProcessed == old(engine.eventsProcessed) + |events|
  {
    hide Do, DoAll, Can, CanAll, After, Accepts, Allows;
    ghost var calls := Seeded(events, batchStart, watermark);
    taken := 0;
    AfterNone(engine, before);
    assert calls[..0] == [];
    AfterOne(engine, before, calls, 0);
    ok := AdvanceEngine(engine, batchStart, After(engine, before, calls[..0]));
    if !ok {
      return;
    }
    taken := 1;
    for t := 0 to |events|
      invariant engine.Valid() && engine.eventsProcessed == old(engine.eventsProcessed) + t
      invariant taken == t + 1 && engine.Holds(After(engine, before, calls[..taken]))
      invariant Accepts(engine, before, calls[..taken])
    {
      AfterOne(engine, before, calls, taken);
      assert calls[taken] == Event(events[t]);
      ok := ProcessEvent(engine, events[t], After(engine, before, calls[..taken]));
      if !ok {
        return;
      }
      taken := taken + 1;
    }
    AfterOne(engine, before, calls, taken);
    assert calls[taken] == Watermark(watermark);
    ok := AdvanceEngine(engine, watermark, After(engine, before, calls[..taken]));
    if ok {
      taken := taken + 1;
    }
  }

  method AdvanceEngine(engine: QueryEngine, ts: nat, ghost now: seq<Q.Query>) returns (ok: bool)
    requires engine.Valid() && engine.Holds(now)
    modifies engine.queries
    ensures engine.Valid() && (ok <==> Allows(engine, now, Watermark(ts)))
    ensures engine.Holds(if ok then seq(|now|, j requires 0 <= j < |now| => Do(engine.queries[j].c, now[j], Watermark(ts)))
                         else now)
  {
    hide Q.Advance, Q.CanAdvance, BucketStart;
    ok := engine.AdvanceTo(ts);
  }

  method ProcessEvent(engine: QueryEngine, e: FlowEvent, ghost now: seq<Q.Query>) returns (ok: bool)
    requires engine.Valid() && engine.Holds(now)
    modifies engine, engine.queries
    ensures engine.Valid() && (ok <==> Allows(engine, now, Event(e)))
    ensures engine.Holds(if ok then seq(|now|, j requires 0 <= j < |now| => Do(engine.queries[j].c, now[j], Event(e)))
                         else now)
    ensures engine.eventsProcessed == old(engine.eventsProcessed) + (if ok then 1 else 0)
  {
    hide Q.Process, Q.CanProcess;
    ok := engine.Process(e);
  }

  class ShardedQueryEngine {
    const shards: seq<QueryEngine>

    ghost predicate Valid()
      reads shards, set i, j | 0 <= i < |shards| && 0 <= j < |shards[i].queries| :: shards[i].queries[j]
    {
      && (forall i :: 0 <= i < |shards| ==> shards[i].Valid())
      && (forall i, k :: 0 <= i < k < |shards| ==> Separate(shards[i], shards[k]))
    }

    constructor (shards: seq<QueryEngine>)
      requires forall i :: 0 <= i < |shards| ==> shards[i].Valid()
      requires forall i, k :: 0 <= i < k < |shards| ==> Separate(shards[i], shards[k])
      ensures Valid() && this.shards == shards
    {
      this.shards := shards;
    }

    /** Take in one dispatched batch. It succeeds exactly when no query of any shard refuses
        a call of its share; then every query has done exactly its share. Otherwise every
        shard took in its calls up to the first one refused, or none. `before` names what
        the shards held. */
    method ProcessBatch(batch: Batch, ghost before: seq<seq<Q.Query>>) returns (ok: bool, ghost taken: seq<nat>)
      requires Valid() && forall s :: s in batch ==> s.shard < |shards|
      requires |before| == |shards| && forall i :: 0 <= i < |shards| ==> shards[i].Holds(before[i])
      modifies shards, set i, j | 0 <= i < |shards| && 0 <= j < |shards[i].queries| :: shards[i].queries[j]
      ensures Valid() && |taken| == |shards|
      ensures ok <==> forall i :: 0 <= i < |shards| ==> Accepts(shards[i], before[i], Share(batch, i))
      ensures ok ==> forall i :: 0 <= i < |shards| ==> shards[i].Holds(ShareOf(shards[i], before[i], batch, i))
      ensures forall i :: 0 <= i < |shards| ==>
        taken[i] <= |Share(batch, i)| && shards[i].Holds(After(shards[i], before[i], Share(batch, i)[..taken[i]]))
      ensures forall i :: 0 <= i < |shards| ==> taken[i] == 0 || Stops(shards[i], before[i], Share(batch, i), taken[i])
    {
      hide Share, QueryEngine.Valid, QueryEngine.Holds, ShareOf, Accepts, Stops, After;
      taken := seq(|shards|, _ => 0);
      forall k | 0 <= k < |shards|
        ensures shards[k].Holds(After(shards[k], before[k], Share(batch, k)[..0]))
      {
        NothingTaken(shards[k], before[k], Share(batch, k));
      }
      if batch == [] {
        NoShare(shards, before);
        return true, taken;
      }
      var lists := Dispatch(batch, |shards|);
      var earliest, latest := TimeRange(batch);
      for i := 0 to |shards|
        invariant Valid() && |taken| == |shards|
        invariant forall k :: i <= k < |shards| ==> taken[k] == 0
        invariant forall k :: 0 <= k < |shards| ==>
          taken[k] <= |Share(batch, k)| && shards[k].Holds(After(shards[k], before[k], Share(batch, k)[..taken[k]]))
        invariant forall k :: 0 <= k < i ==>
          Stops(shards[k], before[k], Share(batch, k), taken[k]) && taken[k] == |Share(batch, k)|
      {
        ghost var now := seq(|shards|, k requires 0 <= k < |shards| =>
          After(shards[k], before[k], Share(batch, k)[..taken[k]]));
        NothingTaken(shards[i], before[i], Share(batch, i));
        ghost var t;
        ok, t := FeedAt(shards, i, lists[i], earliest, latest, batch, now);
        StopsAtEnd(shards[i], before[i], Share(batch, i), t);
        taken := taken[i := t];
        if !ok {
          return;
        }
      }
      forall k | 0 <= k < |shards|
        ensures Accepts(shards[k], before[k], Share(batch, k))
        ensures After(shards[k], before[k], Share(batch, k)[..taken[k]]) == ShareOf(shards[k], before[k], batch, k)
      {
        StopsAtEnd(shards[k], before[k], Share(batch, k), taken[k]);
        TakenIsShare(shards[k], before[k], batch, k);
        assert Share(batch, k)[..taken[k]] == Share(batch, k);
      }
      return true, taken;
    }
  }

  /** Feed shard `i`; the other shards keep what they hold. */
  method FeedAt(shards: seq<QueryEngine>, i: nat, events: seq<FlowEvent>, earliest: nat, latest: nat,
                ghost batch: Batch, ghost now: seq<seq<Q.Query>>) returns (ok: bool, ghost taken: nat)
    requires i < |shards| == |now|
    requires forall k :: 0 <= k < |shards| ==> shards[k].Valid() && shards[k].Holds(now[k])
    requires forall k, l :: 0 <= k < l < |shards| ==> Separate(shards[k], shards[l])
    requires batch != [] && events == OwnEvents(batch, i)
    requires earliest == Earliest(batch) && latest == Latest(batch)
    modifies shards[i], shards[i].queries
    ensures forall k :: 0 <= k < |shards| ==> shards[k].Valid()
    ensures Stops(shards[i], now[i], Share(batch, i), taken) && taken <= |Share(batch, i)|
    ensures shards[i].Holds(After(shards[i], now[i], Share(batch, i)[..taken]))
    ensures ok <==> taken == |Share(batch, i)|
    ensures forall k :: 0 <= k < |shards| && k != i ==> shards[k].Holds(now[k])
  {
    hide Stops, Accepts, After;
    forall k | 0 <= k < |shards| && k != i
      ensures shards[k] != shards[i]
      ensures forall j :: 0 <= j < |shards[k].queries| ==> shards[k].queries[j] !in shards[i].queries
    {
      assert if k < i then Separate(shards[k], shards[i]) else Separate(shards[i], shards[k]);
    }
    ok, taken := FeedEngine(shards[i], events, earliest, latest, now[i]);
    StopsWithin(shards[i], now[i], Share(batch, i), taken);
  }

  lemma {:induction false} StopsWithin(engine: QueryEngine, before: seq<Q.Query>, calls: seq<Call>, taken: nat)
    requires Stops(engine, before, calls, taken)
    ensures taken <= |calls|
  {
  }

  lemma {:induction false} NothingTaken(engine: QueryEngine, before: seq<Q.Query>, calls: seq<Call>)
    ensures After(engine, before, calls[..0]) == before
  {
    assert calls[..0] == [];
    if |before| == |engine.queries| {
      AfterNone(engine, before);
    }
  }

  lemma {:induction false} TakenIsShare(engine: QueryEngine, before: seq<Q.Query>, batch: Batch, i: nat)
    ensures After(engine, before, Share(batch, i)) == ShareOf(engine, before, batch, i)
  {
    hide Share, FeedShard;
    if |before| == |engine.queries| {
      forall j | 0 <= j < |before|
        ensures DoAll(engine.queries[j].c, before[j], Share(batch, i)) == FeedShard(engine.queries[j].c, before[j], batch, i)
      {
        ShareIsFeedShard(engine.queries[j].c, before[j], batch, i);
      }
    }
  }

  /** Two engines that share no object. */
  ghost predicate Separate(a: QueryEngine, b: QueryEngine) {
    a != b && forall q :: q in a.queries ==> q !in b.queries
  }

  /** What shard `i` holds after its share of a batch, query by query. */
  ghost function ShareOf(engine: QueryEngine, before: seq<Q.Query>, batch: Batch, i: nat): seq<Q.Query>
  {
    if |before| != |engine.queries| then before
    else seq(|before|, j requires 0 <= j < |before| => FeedShard(engine.queries[j].c, before[j], batch, i))
  }

  lemma {:induction false} NoShare(shards: seq<QueryEngine>, before: seq<seq<Q.Query>>)
    requires |before| == |shards| && forall i :: 0 <= i < |shards| ==> shards[i].Holds(before[i])
    ensures forall i :: 0 <= i < |shards| ==> shards[i].Holds(ShareOf(shards[i], before[i], [], i))
    ensures forall i :: 0 <= i < |shards| ==> Accepts(shards[i], before[i], Share([], i))
  {
  }
}
