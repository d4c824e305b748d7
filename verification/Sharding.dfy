/** One stream fed to a single engine, and the same stream split over shards that
    share a watermark per batch: when do they report the same windows? */
module Sharding {
  import opened Arithmetic
  import opened WindowRing
  import opened GapRefinement
  import opened QuerySpec
  import opened WindowMeaning
  import opened WindowRuns
  import opened Reports

  /** An event and the shard it was dispatched to, in stream order. */
  datatype Sent = Sent(shard: nat, event: FlowEvent)

  type Batch = seq<Sent>

  /** An event with the newest open bucket of the single engine and of its own
      shard at the moment each of them handled it. */
  datatype Routed = Routed(shard: nat, event: FlowEvent, bucket: nat, single: nat, own: nat)

  // --- the two engines ---

  function FeedSingle(c: Config, q: Query, batch: Batch): Query
    requires c.Valid()
  {
    if batch == [] then q
    else Process(c, FeedSingle(c, q, batch[..|batch| - 1]), batch[|batch| - 1].event)
  }

  function FeedOwn(c: Config, q: Query, batch: Batch, i: nat): Query
    requires c.Valid()
  {
    if batch == [] then q
    else
      var before := FeedOwn(c, q, batch[..|batch| - 1], i);
      var s := batch[|batch| - 1];
      if s.shard == i then Process(c, before, s.event) else before
  }

  function Earliest(batch: Batch): nat
    requires batch != []
  {
    if |batch| == 1 then batch[0].event.ts
    else Min(Earliest(batch[..|batch| - 1]), batch[|batch| - 1].event.ts)
  }

  function Latest(batch: Batch): nat
    requires batch != []
  {
    if |batch| == 1 then batch[0].event.ts
    else Max(Latest(batch[..|batch| - 1]), batch[|batch| - 1].event.ts)
  }

  /** One shard's share of a batch: seed at the batch's earliest time, handle its
      own events in order, then advance to the batch's watermark. */
  function FeedShard(c: Config, q: Query, batch: Batch, i: nat): Query
    requires c.Valid()
  {
    if batch == [] then q
    else
      Advance(c, FeedOwn(c, Advance(c, q, BucketStart(c, Earliest(batch))), batch, i),
              BucketStart(c, Latest(batch)))
  }

  // --- where the engines stand, computed from bucket starts alone ---

  function Stand(c: Config, entry: nat, batch: Batch): (r: nat)
    requires c.Valid()
    ensures entry <= r
  {
    if batch == [] then entry
    else Max(Stand(c, entry, batch[..|batch| - 1]), BucketStart(c, batch[|batch| - 1].event.ts))
  }

  function OwnStand(c: Config, entry: nat, batch: Batch, i: nat): (r: nat)
    requires c.Valid()
    ensures entry <= r
  {
    if batch == [] then entry
    else
      var before := OwnStand(c, entry, batch[..|batch| - 1], i);
      var s := batch[|batch| - 1];
      if s.shard == i then Max(before, BucketStart(c, s.event.ts)) else before
  }

  function Routes(c: Config, bs: nat, bh: nat, batch: Batch): (r: seq<Routed>)
    requires c.Valid()
    ensures |r| == |batch|
  {
    if batch == [] then []
    else
      var s := batch[|batch| - 1];
      Routes(c, bs, bh, batch[..|batch| - 1])
      + [Routed(s.shard, s.event, BucketStart(c, s.event.ts), Stand(c, bs, batch), OwnStand(c, bh, batch, s.shard))]
  }

  function SingleLog(m: seq<Routed>): seq<Arrival> {
    if m == [] then []
    else
      var r := m[|m| - 1];
      SingleLog(m[..|m| - 1]) + [Arrival(r.event, r.bucket, r.single)]
  }

  function OwnLog(m: seq<Routed>): seq<Arrival> {
    if m == [] then []
    else
      var r := m[|m| - 1];
      OwnLog(m[..|m| - 1]) + [Arrival(r.event, r.bucket, r.own)]
  }

  function ShardLog(m: seq<Routed>, i: nat): seq<Arrival> {
    if m == [] then []
    else
      var r := m[|m| - 1];
      ShardLog(m[..|m| - 1], i) + (if r.shard == i then [Arrival(r.event, r.bucket, r.own)] else [])
  }

  lemma {:induction false} ShardLogSnoc(m: seq<Routed>, r: Routed, i: nat)
    ensures ShardLog(m + [r], i)
         == if r.shard == i then ShardLog(m, i) + [Arrival(r.event, r.bucket, r.own)] else ShardLog(m, i)
  {
    assert (m + [r])[..|m|] == m;
  }

  // --- one engine's progress ---

  /** The engine is faithful to `log`, and has emitted, on top of `base`, exactly
      the non-empty windows up to where it stands. */
  ghost predicate Accounts(c: Config, first: nat, log: seq<Arrival>, q: Query, base: seq<Window>)
    requires c.Valid()
  {
    && q.ring != [] && Faithful(c, q.ring, first, log)
    && NonEmpty(WindowsUpTo(c, first, log, Back(q.ring))) == NonEmpty(base) + NonEmpty(q.emitted)
  }

  lemma {:induction false} AdvanceAccounts(c: Config, first: nat, log: seq<Arrival>, q: Query, base: seq<Window>, target: nat)
    requires c.Valid() && Accounts(c, first, log, q, base) && Aligned(c, target)
    ensures var r := Advance(c, q, target);
      Accounts(c, first, log, r, base) && Back(r.ring) == Max(Back(q.ring), target)
  {
    hide FastAdvance, Faithful, WindowsUpTo, NonEmpty;
    AdvanceMeaning(c, q.ring, target, first, log);
    var a := FastAdvance(c, q.ring, target);
    NonEmptyConcat(q.emitted, a.windows);
    ConcatAssociates(NonEmpty(base), NonEmpty(q.emitted), NonEmpty(a.windows));
  }

  lemma {:induction false} ProcessAccounts(c: Config, first: nat, log: seq<Arrival>, q: Query, base: seq<Window>, e: FlowEvent)
    requires c.Valid() && Accounts(c, first, log, q, base) && c.filter(e)
    ensures var r := Process(c, q, e);
      var start := BucketStart(c, e.ts);
      && r.ring != [] && Back(r.ring) == Max(Back(q.ring), start)
      && Accounts(c, first, log + [Arrival(e, start, Back(r.ring))], r, base)
  {
    hide FastAdvance, Faithful, WindowsUpTo, NonEmpty, Advance;
    var start := BucketStart(c, e.ts);
    AdvanceAccounts(c, first, log, q, base, start);
    var mid := Advance(c, q, start);
    PlaceKeepsFaithful(c, mid, e, first, log);
    LaterArrivals(c, first, log, Arrival(e, start, Back(mid.ring)), Back(mid.ring));
  }

  lemma {:induction false} SingleAccounts(c: Config, first: nat, m: seq<Routed>, q: Query, base: seq<Window>, batch: Batch, bs: nat, bh: nat)
    requires c.Valid() && Accounts(c, first, SingleLog(m), q, base) && Back(q.ring) == bs
    requires forall s :: s in batch ==> c.filter(s.event)
    ensures var r := FeedSingle(c, q, batch);
      && Accounts(c, first, SingleLog(m + Routes(c, bs, bh, batch)), r, base)
      && Back(r.ring) == Stand(c, bs, batch)
  {
    hide Process, Accounts, BucketStart;
    if batch == [] {
      assert m + [] == m;
    } else {
      var init := batch[..|batch| - 1];
      SingleAccounts(c, first, m, q, base, init, bs, bh);
      AccountsHasRing(c, first, SingleLog(m + Routes(c, bs, bh, init)), FeedSingle(c, q, init), base);
      ProcessAccounts(c, first, SingleLog(m + Routes(c, bs, bh, init)), FeedSingle(c, q, init), base, batch[|batch| - 1].event);
      var routes := Routes(c, bs, bh, batch);
      assert (m + routes)[..|m + routes| - 1] == m + Routes(c, bs, bh, init);
    }
  }

  lemma {:induction false} AccountsHasRing(c: Config, first: nat, log: seq<Arrival>, q: Query, base: seq<Window>)
    requires c.Valid() && Accounts(c, first, log, q, base)
    ensures q.ring != []
  {
  }

  lemma {:induction false} OwnAccounts(c: Config, first: nat, m: seq<Routed>, q: Query, base: seq<Window>, batch: Batch, bs: nat, bh: nat, i: nat)
    requires c.Valid() && Accounts(c, first, ShardLog(m, i), q, base) && Back(q.ring) == bh
    requires forall s :: s in batch ==> c.filter(s.event)
    ensures var r := FeedOwn(c, q, batch, i);
      && Accounts(c, first, ShardLog(m + Routes(c, bs, bh, batch), i), r, base)
      && Back(r.ring) == OwnStand(c, bh, batch, i)
  {
    hide Process, Accounts, BucketStart, ShardLog;
    if batch == [] {
      assert m + [] == m;
    } else {
      var init := batch[..|batch| - 1];
      OwnAccounts(c, first, m, q, base, init, bs, bh, i);
      var s := batch[|batch| - 1];
      var before := m + Routes(c, bs, bh, init);
      var r := Routed(s.shard, s.event, BucketStart(c, s.event.ts), Stand(c, bs, batch), OwnStand(c, bh, batch, s.shard));
      assert m + Routes(c, bs, bh, batch) == before + [r];
      ShardLogSnoc(before, r, i);
      AccountsHasRing(c, first, ShardLog(before, i), FeedOwn(c, q, init, i), base);
      if s.shard == i {
        ProcessAccounts(c, first, ShardLog(before, i), FeedOwn(c, q, init, i), base, s.event);
      }
    }
  }

  // --- order facts about where the engines stand ---

  lemma {:induction false} BucketStartMonotone(c: Config, a: nat, b: nat)
    requires c.Valid() && a <= b
    ensures BucketStart(c, a) <= BucketStart(c, b)
  {
    if BucketStart(c, b) < BucketStart(c, a) {
      AlignedGap(BucketStart(c, b), BucketStart(c, a), c.slide);
      assert false;
    }
  }

  lemma {:induction false} StandAtWatermark(c: Config, entry: nat, batch: Batch)
    requires c.Valid() && batch != []
    ensures Stand(c, entry, batch) == Max(entry, BucketStart(c, Latest(batch)))
  {
    hide BucketStart;
    var init, last := batch[..|batch| - 1], batch[|batch| - 1].event.ts;
    if |batch| == 1 {
      assert Stand(c, entry, init) == entry;
    } else {
      StandAtWatermark(c, entry, init);
      if Latest(init) <= last {
        BucketStartMonotone(c, Latest(init), last);
      } else {
        BucketStartMonotone(c, last, Latest(init));
      }
    }
  }

  lemma {:induction false} EarliestIsLeast(batch: Batch, j: nat)
    requires j < |batch|
    ensures Earliest(batch) <= batch[j].event.ts <= Latest(batch)
  {
    if j < |batch| - 1 {
      EarliestIsLeast(batch[..|batch| - 1], j);
    } else if |batch| > 1 {
    }
  }

  lemma {:induction false} OwnBelowStand(c: Config, bs: nat, bh: nat, batch: Batch, i: nat)
    requires c.Valid()
    requires batch == [] ==> bh <= bs
    requires batch != [] ==> bh <= Max(bs, BucketStart(c, batch[0].event.ts))
    ensures OwnStand(c, bh, batch, i) <= Stand(c, bs, batch)
  {
    hide BucketStart;
    if |batch| == 1 {
      assert batch[..0] == [];
      assert Stand(c, bs, batch[..0]) == bs && OwnStand(c, bh, batch[..0], i) == bh;
    } else if |batch| > 1 {
      OwnBelowStand(c, bs, bh, batch[..|batch| - 1], i);
    }
  }

  lemma {:induction false} RoutesOrdered(c: Config, bs: nat, bh: nat, batch: Batch)
    requires c.Valid() && Aligned(c, bh) && Aligned(c, bs)
    requires batch != [] ==> bh <= Max(bs, BucketStart(c, batch[0].event.ts))
    ensures forall r :: r in Routes(c, bs, bh, batch) ==>
      && bh <= r.own <= r.single && bs <= r.single && Aligned(c, r.own) && Aligned(c, r.single)
      && r.bucket == BucketStart(c, r.event.ts) && r.bucket <= r.own
  {
    if batch != [] {
      var s := batch[|batch| - 1];
      RoutesOrdered(c, bs, bh, batch[..|batch| - 1]);
      OwnBelowStand(c, bs, bh, batch, s.shard);
      StandAligned(c, bs, batch);
      OwnStandAligned(c, bh, batch, s.shard);
    }
  }

  lemma {:induction false} StandAligned(c: Config, entry: nat, batch: Batch)
    requires c.Valid() && Aligned(c, entry)
    ensures Aligned(c, Stand(c, entry, batch))
  {
    if batch != [] {
      StandAligned(c, entry, batch[..|batch| - 1]);
    }
  }

  lemma {:induction false} OwnStandAligned(c: Config, entry: nat, batch: Batch, i: nat)
    requires c.Valid() && Aligned(c, entry)
    ensures Aligned(c, OwnStand(c, entry, batch, i))
  {
    if batch != [] {
      OwnStandAligned(c, entry, batch[..|batch| - 1], i);
    }
  }
}
