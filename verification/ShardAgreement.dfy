/** The exact condition under which a sharded engine reports what one engine would. */
module ShardAgreement {
  import opened Arithmetic
  import opened WindowRing
  import opened GapRefinement
  import opened QuerySpec
  import opened WindowMeaning
  import opened WindowRuns
  import opened Reports
  import opened Sharding

  datatype Cluster = Cluster(single: Query, shards: seq<Query>)

  const Unopened: Query := Query([], [], 0)

  function Opened(start: nat): Query {
    Query([Bucket(start, multiset{})], [], 0)
  }

  function Fresh(n: nat): Cluster {
    Cluster(Unopened, seq(n, _ => Unopened))
  }

  /** Both engines drain, then take in one batch. */
  function FeedBatch(c: Config, k: Cluster, batch: Batch): Cluster
    requires c.Valid()
  {
    Cluster(FeedSingle(c, Drain(k.single), batch),
            seq(|k.shards|, i requires 0 <= i < |k.shards| => FeedShard(c, Drain(k.shards[i]), batch, i)))
  }

  function Feed(c: Config, n: nat, batches: seq<Batch>): Cluster
    requires c.Valid()
  {
    if batches == [] then Fresh(n)
    else FeedBatch(c, Feed(c, n, batches[..|batches| - 1]), batches[|batches| - 1])
  }

  /** End of stream: drain, then close the trailing window everywhere. */
  function Close(c: Config, k: Cluster): Cluster {
    Cluster(Finish(c, Drain(k.single)),
            seq(|k.shards|, i requires 0 <= i < |k.shards| => Finish(c, Drain(k.shards[i]))))
  }

  function AllEmitted(shards: seq<Query>): seq<Window> {
    if shards == [] then [] else AllEmitted(shards[..|shards| - 1]) + shards[|shards| - 1].emitted
  }

  ghost predicate ReportsAgree(k: Cluster) {
    SameReport(k.single.emitted, AllEmitted(k.shards))
  }

  // --- what the shards hold together ---

  function GatherOwn(m: seq<Routed>, lo: nat, end: nat, below: nat): multiset<FlowEvent> {
    if m == [] then multiset{}
    else
      var r := m[|m| - 1];
      GatherOwn(m[..|m| - 1], lo, end, below)
      + (if r.shard < below && lo <= r.bucket && r.own < end then multiset{r.event} else multiset{})
  }

  lemma {:induction false} OneMoreShard(m: seq<Routed>, lo: nat, end: nat, i: nat)
    ensures GatherOwn(m, lo, end, i + 1) == GatherOwn(m, lo, end, i) + Covered(ShardLog(m, i), lo, end)
  {
    hide ShardLog, Covered;
    if m != [] {
      OneMoreShard(m[..|m| - 1], lo, end, i);
      CoveredByShard(m, lo, end, i);
    } else {
      NothingLogged(lo, end, i);
    }
  }

  lemma {:induction false} NothingLogged(lo: nat, end: nat, i: nat)
    ensures Covered(ShardLog([], i), lo, end) == multiset{}
  {
  }

  lemma {:induction false} CoveredByShard(m: seq<Routed>, lo: nat, end: nat, i: nat)
    requires m != []
    ensures var r := m[|m| - 1];
      Covered(ShardLog(m, i), lo, end)
      == Covered(ShardLog(m[..|m| - 1], i), lo, end)
         + (if r.shard == i && lo <= r.bucket && r.own < end then multiset{r.event} else multiset{})
  {
    var r := m[|m| - 1];
    assert m == m[..|m| - 1] + [r];
    ShardLogSnoc(m[..|m| - 1], r, i);
    CoveredSnoc(ShardLog(m[..|m| - 1], i), Arrival(r.event, r.bucket, r.own), lo, end);
  }

  lemma {:induction false} NoShards(m: seq<Routed>, lo: nat, end: nat)
    ensures GatherOwn(m, lo, end, 0) == multiset{}
  {
    if m != [] {
      NoShards(m[..|m| - 1], lo, end);
    }
  }

  lemma {:induction false} AllShards(m: seq<Routed>, lo: nat, end: nat, n: nat)
    requires forall r :: r in m ==> r.shard < n
    ensures GatherOwn(m, lo, end, n) == Covered(OwnLog(m), lo, end)
  {
    if m != [] {
      var r := m[|m| - 1];
      AllShards(m[..|m| - 1], lo, end, n);
      CoveredSnoc(OwnLog(m[..|m| - 1]), Arrival(r.event, r.bucket, r.own), lo, end);
    }
  }

  lemma {:induction false} ShardsTogether(shards: seq<Query>, m: seq<Routed>, key: Bounds, closed: bool)
    requires forall i :: 0 <= i < |shards| ==>
      EventsAt(shards[i].emitted, key) == if closed then Covered(ShardLog(m, i), key.0, key.1) else multiset{}
    ensures EventsAt(AllEmitted(shards), key)
         == if closed then GatherOwn(m, key.0, key.1, |shards|) else multiset{}
  {
    if shards == [] {
      NoShards(m, key.0, key.1);
    } else {
      var init, last := shards[..|shards| - 1], |shards| - 1;
      assert forall i :: 0 <= i < last ==> init[i] == shards[i];
      ShardsTogether(init, m, key, closed);
      EventsAtConcat(AllEmitted(init), shards[last].emitted, key);
      OneMoreShard(m, key.0, key.1, last);
    }
  }

  /** Events a shard still had room for in a window the single engine had closed. */
  function Gap(m: seq<Routed>, lo: nat, end: nat): multiset<FlowEvent> {
    if m == [] then multiset{}
    else
      var r := m[|m| - 1];
      Gap(m[..|m| - 1], lo, end)
      + (if lo <= r.bucket && r.own < end <= r.single then multiset{r.event} else multiset{})
  }

  lemma {:induction false} GapSplit(m: seq<Routed>, lo: nat, end: nat)
    requires forall r :: r in m ==> r.own <= r.single
    ensures Covered(OwnLog(m), lo, end) == Covered(SingleLog(m), lo, end) + Gap(m, lo, end)
  {
    if m != [] {
      var r := m[|m| - 1];
      GapSplit(m[..|m| - 1], lo, end);
      CoveredSnoc(OwnLog(m[..|m| - 1]), Arrival(r.event, r.bucket, r.own), lo, end);
      CoveredSnoc(SingleLog(m[..|m| - 1]), Arrival(r.event, r.bucket, r.single), lo, end);
    }
  }

  lemma {:induction false} GapEmpty(m: seq<Routed>, lo: nat, end: nat)
    ensures Gap(m, lo, end) == multiset{} <==> forall r :: r in m ==> !(lo <= r.bucket && r.own < end <= r.single)
  {
    if m != [] {
      GapEmpty(m[..|m| - 1], lo, end);
      assert forall r :: r in m <==> r in m[..|m| - 1] || r == m[|m| - 1];
    }
  }

  // --- one engine, one batch ---

  lemma {:induction false} LaterLog(c: Config, first: nat, log: seq<Arrival>, more: seq<Arrival>, back: nat)
    requires c.Valid() && forall a :: a in more ==> back <= a.back
    ensures WindowsUpTo(c, first, log + more, back) == WindowsUpTo(c, first, log, back)
  {
    if more == [] {
      assert log + more == log;
    } else {
      var init, a := more[..|more| - 1], more[|more| - 1];
      LaterLog(c, first, log, init, back);
      LaterArrivals(c, first, log + init, a, back);
      assert log + more == log + init + [a];
    }
  }

  /** Between two stands an engine reports exactly the windows on its grid. */
  lemma {:induction false} EngineReport(c: Config, first: nat, log: seq<Arrival>, more: seq<Arrival>, q: Query, entry: nat, key: Bounds)
    requires c.Valid() && Aligned(c, first) && Aligned(c, entry) && first <= entry
    requires forall a :: a in more ==> entry <= a.back
    requires Accounts(c, first, log + more, q, WindowsUpTo(c, first, log, entry)) && entry <= Back(q.ring)
    ensures EventsAt(q.emitted, key)
         == if OnGrid(c, first, entry, Back(q.ring), key) then Covered(log + more, key.0, key.1) else multiset{}
  {
    hide Covered, WindowStart, WindowsUpTo, NonEmpty;
    var back := Back(q.ring);
    LaterLog(c, first, log, more, entry);
    EventsAtUpTo(c, first, log + more, back, key);
    EventsAtUpTo(c, first, log + more, entry, key);
    EventsAtNonEmpty(WindowsUpTo(c, first, log + more, back), key);
    EventsAtNonEmpty(WindowsUpTo(c, first, log, entry), key);
    EventsAtNonEmpty(q.emitted, key);
    EventsAtConcat(NonEmpty(WindowsUpTo(c, first, log, entry)), NonEmpty(q.emitted), key);
  }

  lemma {:induction false} LogsConcat(m: seq<Routed>, more: seq<Routed>, i: nat)
    ensures SingleLog(m + more) == SingleLog(m) + SingleLog(more)
    ensures ShardLog(m + more, i) == ShardLog(m, i) + ShardLog(more, i)
  {
    if more == [] {
      assert m + more == m;
    } else {
      assert (m + more)[..|m + more| - 1] == m + more[..|more| - 1];
      LogsConcat(m, more[..|more| - 1], i);
    }
  }

  lemma {:induction false} LogBacks(m: seq<Routed>, i: nat, bs: nat, bh: nat)
    requires forall r :: r in m ==> bs <= r.single && bh <= r.own
    ensures forall a :: a in SingleLog(m) ==> bs <= a.back
    ensures forall a :: a in ShardLog(m, i) ==> bh <= a.back
  {
    if m != [] {
      LogBacks(m[..|m| - 1], i, bs, bh);
    }
  }

  lemma {:induction false} RouteShards(c: Config, bs: nat, bh: nat, batch: Batch, n: nat)
    requires c.Valid() && forall s :: s in batch ==> s.shard < n
    ensures forall r :: r in Routes(c, bs, bh, batch) ==> r.shard < n
  {
    if batch != [] {
      RouteShards(c, bs, bh, batch[..|batch| - 1], n);
    }
  }

  // --- the two engines side by side ---

  /** Both engines have handled `m`; the single one stands at `bs`, each shard at `bh`. */
  ghost predicate Synced(c: Config, fs: nat, fh: nat, k: Cluster, m: seq<Routed>, bs: nat, bh: nat)
    requires c.Valid()
  {
    && Aligned(c, fs) && Aligned(c, fh) && Aligned(c, bs) && Aligned(c, bh)
    && fh <= fs <= bs && fh <= bh <= bs
    && StandsAt(c, fs, SingleLog(m), k.single, bs)
    && (forall i :: 0 <= i < |k.shards| ==> StandsAt(c, fh, ShardLog(m, i), k.shards[i], bh))
    && (forall r :: r in m ==> r.shard < |k.shards| && r.own <= r.single <= bs)
  }

  ghost predicate StandsAt(c: Config, first: nat, log: seq<Arrival>, q: Query, back: nat)
    requires c.Valid()
  {
    q.ring != [] && Faithful(c, q.ring, first, log) && Back(q.ring) == back
  }

  lemma {:induction false} SingleBatch(c: Config, fs: nat, m: seq<Routed>, q: Query, batch: Batch, bs: nat, bh: nat, key: Bounds)
    requires c.Valid() && Aligned(c, fs) && Aligned(c, bs) && fs <= bs
    requires StandsAt(c, fs, SingleLog(m), q, bs)
    requires forall s :: s in batch ==> c.filter(s.event)
    requires forall r :: r in Routes(c, bs, bh, batch) ==> bs <= r.single
    ensures var r := FeedSingle(c, Drain(q), batch);
      var all := m + Routes(c, bs, bh, batch);
      && StandsAt(c, fs, SingleLog(all), r, Stand(c, bs, batch))
      && EventsAt(r.emitted, key)
         == if OnGrid(c, fs, bs, Stand(c, bs, batch), key) then Covered(SingleLog(all), key.0, key.1) else multiset{}
  {
    hide Faithful, WindowsUpTo, OnGrid, Covered;
    var more := Routes(c, bs, bh, batch);
    var base := WindowsUpTo(c, fs, SingleLog(m), bs);
    assert NonEmpty(base) + NonEmpty([]) == NonEmpty(base);
    SingleAccounts(c, fs, m, Drain(q), base, batch, bs, bh);
    LogsConcat(m, more, 0);
    LogBacks(more, 0, bs, 0);
    EngineReport(c, fs, SingleLog(m), SingleLog(more), FeedSingle(c, Drain(q), batch), bs, key);
  }

  lemma {:induction false} ShardBatch(c: Config, fh: nat, m: seq<Routed>, q: Query, batch: Batch, bs: nat, bh: nat, i: nat, key: Bounds)
    requires c.Valid() && Aligned(c, fh) && Aligned(c, bh) && fh <= bh
    requires StandsAt(c, fh, ShardLog(m, i), q, bh) && batch != []
    requires forall s :: s in batch ==> c.filter(s.event)
    requires var seed := Max(bh, BucketStart(c, Earliest(batch)));
      forall r :: r in Routes(c, bs, seed, batch) ==> bh <= r.own
    ensures var seed := Max(bh, BucketStart(c, Earliest(batch)));
      var r := FeedShard(c, Drain(q), batch, i);
      var all := m + Routes(c, bs, seed, batch);
      var back := Max(OwnStand(c, seed, batch, i), BucketStart(c, Latest(batch)));
      && StandsAt(c, fh, ShardLog(all, i), r, back)
      && EventsAt(r.emitted, key)
         == if OnGrid(c, fh, bh, back, key) then Covered(ShardLog(all, i), key.0, key.1) else multiset{}
  {
    hide Faithful, WindowsUpTo, OnGrid, Covered, BucketStart, NonEmpty, Advance;
    var seed := Max(bh, BucketStart(c, Earliest(batch)));
    var more := Routes(c, bs, seed, batch);
    var base := WindowsUpTo(c, fh, ShardLog(m, i), bh);
    NothingEmitted(base);
    AdvanceAccounts(c, fh, ShardLog(m, i), Drain(q), base, BucketStart(c, Earliest(batch)));
    var seeded := Advance(c, Drain(q), BucketStart(c, Earliest(batch)));
    OwnAccounts(c, fh, m, seeded, base, batch, bs, seed, i);
    AdvanceAccounts(c, fh, ShardLog(m + more, i), FeedOwn(c, seeded, batch, i), base, BucketStart(c, Latest(batch)));
    LogsConcat(m, more, i);
    LogBacks(more, i, 0, bh);
    EngineReport(c, fh, ShardLog(m, i), ShardLog(more, i), FeedShard(c, Drain(q), batch, i), bh, key);
  }

  lemma {:induction false} NothingEmitted(base: seq<Window>)
    ensures NonEmpty(base) == NonEmpty(base) + NonEmpty([])
  {
  }

  /** Where a batch leaves the shards: together, where the single engine stands. */
  lemma {:induction false} ShardsCatchUp(c: Config, batch: Batch, bs: nat, bh: nat, i: nat)
    requires c.Valid() && batch != [] && Aligned(c, bs) && Aligned(c, bh)
    requires bh == bs || (bh <= bs <= BucketStart(c, Latest(batch)))
    ensures var seed := Max(bh, BucketStart(c, Earliest(batch)));
      && Max(OwnStand(c, seed, batch, i), BucketStart(c, Latest(batch))) == Stand(c, bs, batch)
      && seed <= Max(bs, BucketStart(c, batch[0].event.ts))
      && Aligned(c, seed) && Aligned(c, Stand(c, bs, batch))
  {
    var seed := Max(bh, BucketStart(c, Earliest(batch)));
    EarliestIsLeast(batch, 0);
    BucketStartMonotone(c, Earliest(batch), batch[0].event.ts);
    OwnBelowStand(c, bs, seed, batch, i);
    StandAtWatermark(c, bs, batch);
    StandAligned(c, bs, batch);
  }

  /** After a batch both engines stand together, and each reports exactly the
      windows on its own grid. */
  lemma {:induction false} FeedBatchSynced(c: Config, fs: nat, fh: nat, k: Cluster, m: seq<Routed>, batch: Batch, bs: nat, bh: nat)
    requires c.Valid() && Synced(c, fs, fh, k, m, bs, bh) && batch != []
    requires forall s :: s in batch ==> c.filter(s.event) && s.shard < |k.shards|
    requires bh == bs || bs <= BucketStart(c, Latest(batch))
    ensures var all := m + Routes(c, bs, Max(bh, BucketStart(c, Earliest(batch))), batch);
      var back := Stand(c, bs, batch);
      var r := FeedBatch(c, k, batch);
      && Synced(c, fs, fh, r, all, back, back)
      && ReportsLog(c, fs, bs, back, r.single.emitted, SingleLog(all))
      && ReportsLog(c, fh, bh, back, AllEmitted(r.shards), OwnLog(all))
  {
    hide StandsAt, OnGrid, Covered, BucketStart, Routes, EventsAt, OwnLog, SingleLog, ShardLog, FeedSingle, FeedShard;
    var seed := Max(bh, BucketStart(c, Earliest(batch)));
    var more := Routes(c, bs, seed, batch);
    var all := m + more;
    var back := Stand(c, bs, batch);
    var r := FeedBatch(c, k, batch);
    ShardsCatchUp(c, batch, bs, bh, 0);
    RoutesOrdered(c, bs, seed, batch);
    RouteShards(c, bs, seed, batch, |k.shards|);
    RoutesBelow(c, bs, seed, batch);
    forall key: Bounds
      ensures EventsAt(r.single.emitted, key)
           == if OnGrid(c, fs, bs, back, key) then Covered(SingleLog(all), key.0, key.1) else multiset{}
      ensures StandsAt(c, fs, SingleLog(all), r.single, back)
    {
      SingleBatch(c, fs, m, k.single, batch, bs, seed, key);
    }
    forall key: Bounds, i | 0 <= i < |k.shards|
      ensures EventsAt(r.shards[i].emitted, key)
           == if OnGrid(c, fh, bh, back, key) then Covered(ShardLog(all, i), key.0, key.1) else multiset{}
      ensures StandsAt(c, fh, ShardLog(all, i), r.shards[i], back)
    {
      ShardsCatchUp(c, batch, bs, bh, i);
      ShardBatch(c, fh, m, k.shards[i], batch, bs, bh, i, key);
    }
    forall key: Bounds
      ensures EventsAt(AllEmitted(r.shards), key)
           == if OnGrid(c, fh, bh, back, key) then Covered(OwnLog(all), key.0, key.1) else multiset{}
    {
      ShardsTogether(r.shards, all, key, OnGrid(c, fh, bh, back, key));
      AllShards(all, key.0, key.1, |r.shards|);
    }
    assert StandsAt(c, fs, SingleLog(all), r.single, back) by {
      SingleBatch(c, fs, m, k.single, batch, bs, seed, (0, 0));
    }
    forall i | 0 <= i < |k.shards|
      ensures StandsAt(c, fh, ShardLog(all, i), r.shards[i], back)
    {
      ShardsCatchUp(c, batch, bs, bh, i);
      ShardBatch(c, fh, m, k.shards[i], batch, bs, bh, i, (0, 0));
    }
  }

  lemma {:induction false} RoutesBelow(c: Config, bs: nat, bh: nat, batch: Batch)
    requires c.Valid()
    ensures forall r :: r in Routes(c, bs, bh, batch) ==> r.single <= Stand(c, bs, batch)
  {
    if batch != [] {
      RoutesBelow(c, bs, bh, batch[..|batch| - 1]);
    }
  }
}
