/** Main result: over a whole stream, sharding changes no report if and only if
    no shard still had room for an event whose window the single engine had
    already closed (and both opened on the same bucket). */
module ShardTheorem {
  import opened Arithmetic
  import opened WindowRing
  import opened GapRefinement
  import opened QuerySpec
  import opened WindowMeaning
  import opened WindowRuns
  import opened Reports
  import opened Sharding
  import opened ShardAgreement

  /** Its shard stands where the single engine stands, or it is late in its shard
      (and so in the single engine too). */
  predicate InStep(c: Config, fh: nat, r: Routed) {
    r.own == r.single || WasLate(c, fh, Arrival(r.event, r.bucket, r.own))
  }

  /** Both engines opened on one bucket; irrelevant when windows tumble. */
  predicate SameOpening(c: Config, fs: nat, fh: nat) {
    fs == fh || c.buckets == 1
  }

  ghost predicate Ordered(c: Config, m: seq<Routed>)
    requires c.Valid()
  {
    forall r :: r in m ==> r.own <= r.single && Aligned(c, r.own) && Aligned(c, r.single)
  }

  /** An event in step is on the same side of every window end in both engines. */
  lemma {:induction false} InStepNoGap(c: Config, fh: nat, r: Routed, end: nat)
    requires c.Valid() && InStep(c, fh, r) && r.own <= r.single && Aligned(c, r.own) && Aligned(c, end)
    ensures !(WindowStart(c, fh, end) <= r.bucket && r.own < end <= r.single)
  {
    if r.own < end {
      AlignedGap(r.own, end, c.slide);
    }
  }

  lemma {:induction false} GridStarts(c: Config, fs: nat, fh: nat, end: nat)
    requires c.Valid() && Aligned(c, fs) && Aligned(c, end) && fh <= fs < end && SameOpening(c, fs, fh)
    ensures WindowStart(c, fs, end) == WindowStart(c, fh, end)
  {
    if c.buckets == 1 {
      AlignedGap(fs, end, c.slide);
    }
  }

  /** One batch: the shards never report less than the single engine, and report
      the same exactly when every event of the batch is in step. */
  lemma {:induction false} BatchAgreement(c: Config, fs: nat, fh: nat, m: seq<Routed>, more: seq<Routed>, bs: nat, bh: nat, back: nat,
                       single: seq<Window>, shards: seq<Window>)
    requires c.Valid() && Aligned(c, fs) && Aligned(c, fh) && Aligned(c, back)
    requires fh <= fs <= bs && fh <= bh <= bs <= back && SameOpening(c, fs, fh)
    requires bs == bh || m == []
    requires Ordered(c, m + more)
    requires forall r :: r in m ==> r.single <= bs
    requires forall r :: r in more ==> bs <= r.single <= back && bh <= r.own
    requires ReportsLog(c, fs, bs, back, single, SingleLog(m + more))
    requires ReportsLog(c, fh, bh, back, shards, OwnLog(m + more))
    ensures forall key :: EventsAt(single, key) <= EventsAt(shards, key)
    ensures SameReport(single, shards) <==> forall r :: r in more ==> InStep(c, fh, r)
  {
    hide EventsAt, Covered, OwnLog, SingleLog, Gap;
    var all := m + more;
    forall key: Bounds
      ensures EventsAt(single, key) <= EventsAt(shards, key)
      ensures (forall r :: r in more ==> InStep(c, fh, r)) ==> EventsAt(single, key) == EventsAt(shards, key)
    {
      GapSplit(all, key.0, key.1);
      if OnGrid(c, fs, bs, back, key) || OnGrid(c, fh, bh, back, key) {
        if bs < key.1 {
          GridStarts(c, fs, fh, key.1);
        }
        if forall r :: r in more ==> InStep(c, fh, r) {
          InStepCloses(c, fh, m, more, bs, key);
        }
      }
    }
    if r :| r in more && !InStep(c, fh, r) {
      OutOfStepShows(c, fs, fh, m, more, bs, bh, back, single, shards, r);
    }
  }

  lemma {:induction false} InStepCloses(c: Config, fh: nat, m: seq<Routed>, more: seq<Routed>, bs: nat, key: Bounds)
    requires c.Valid() && Ordered(c, m + more) && Aligned(c, key.1)
    requires bs < key.1 || m == []
    requires key.0 == WindowStart(c, fh, key.1)
    requires forall r :: r in m ==> r.single <= bs
    requires forall r :: r in more ==> bs <= r.single && InStep(c, fh, r)
    ensures Covered(OwnLog(m + more), key.0, key.1) == Covered(SingleLog(m + more), key.0, key.1)
    ensures key.1 <= bs ==> Covered(OwnLog(m + more), key.0, key.1) == multiset{}
  {
    var all := m + more;
    forall r | r in all
      ensures !(key.0 <= r.bucket && r.own < key.1 <= r.single)
    {
      if r in more {
        InStepNoGap(c, fh, r, key.1);
      }
    }
    GapEmpty(all, key.0, key.1);
    GapSplit(all, key.0, key.1);
    if key.1 <= bs {
      NothingBefore(all, key);
    }
  }

  lemma {:induction false} NothingBefore(m: seq<Routed>, key: Bounds)
    requires forall r :: r in m ==> key.1 <= r.single
    ensures Covered(SingleLog(m), key.0, key.1) == multiset{}
  {
    if m != [] {
      var r := m[|m| - 1];
      NothingBefore(m[..|m| - 1], key);
      CoveredSnoc(SingleLog(m[..|m| - 1]), Arrival(r.event, r.bucket, r.single), key.0, key.1);
    }
  }

  /** An event out of step is reported by its shard in a window without it. */
  lemma {:induction false} OutOfStepShows(c: Config, fs: nat, fh: nat, m: seq<Routed>, more: seq<Routed>, bs: nat, bh: nat, back: nat,
                       single: seq<Window>, shards: seq<Window>, r: Routed)
    requires c.Valid() && Aligned(c, fs) && Aligned(c, fh) && Aligned(c, back)
    requires fh <= fs <= bs && fh <= bh <= bs <= back && SameOpening(c, fs, fh)
    requires Ordered(c, m + more)
    requires r in more && !InStep(c, fh, r) && r.single <= back && bh <= r.own
    requires ReportsLog(c, fs, bs, back, single, SingleLog(m + more))
    requires ReportsLog(c, fh, bh, back, shards, OwnLog(m + more))
    ensures !SameReport(single, shards)
  {
    hide EventsAt, Covered, OwnLog, SingleLog, Gap;
    var all := m + more;
    var end := r.own + c.slide;
    assert r in all;
    AlignedGap(r.own, r.single, c.slide);
    AlignedStep(r.own, c.slide);
    var key := (WindowStart(c, fh, end), end);
    GapSplit(all, key.0, key.1);
    GapEmpty(all, key.0, key.1);
    assert r.own < end <= r.single && key.0 <= r.bucket;
    if bs < end {
      GridStarts(c, fs, fh, end);
    }
    assert OnGrid(c, fh, bh, back, key);
    assert EventsAt(single, key) != EventsAt(shards, key);
  }

  // --- opening ---

  lemma {:induction false} OpeningSingle(c: Config, batch: Batch)
    requires c.Valid() && batch != [] && c.filter(batch[0].event)
    ensures FeedSingle(c, Unopened, batch) == FeedSingle(c, Opened(BucketStart(c, batch[0].event.ts)), batch)
  {
    hide BucketStart;
    if |batch| == 1 {
      var start := BucketStart(c, batch[0].event.ts);
      OpenOnce(c, start);
      assert batch[..0] == [];
      assert FeedSingle(c, Unopened, batch[..0]) == Unopened;
      assert FeedSingle(c, Opened(start), batch[..0]) == Opened(start);
    } else {
      OpeningSingle(c, batch[..|batch| - 1]);
    }
  }

  lemma {:induction false} OpenOnce(c: Config, start: nat)
    requires c.Valid()
    ensures Advance(c, Unopened, start) == Opened(start) == Advance(c, Opened(start), start)
  {
    assert SlidesTo(c, Opened(start).ring, start) == 0;
  }

  lemma {:induction false} OpeningBatch(c: Config, n: nat, k: Cluster, batch: Batch)
    requires c.Valid() && batch != [] && c.filter(batch[0].event) && |k.shards| == n
    requires k.single.ring == [] && k.single.late == 0
    requires forall i :: 0 <= i < n ==> k.shards[i].ring == [] && k.shards[i].late == 0
    ensures var fs := BucketStart(c, batch[0].event.ts);
      var fh := BucketStart(c, Earliest(batch));
      && FeedBatch(c, k, batch) == FeedBatch(c, Cluster(Opened(fs), seq(n, _ => Opened(fh))), batch)
      && Synced(c, fs, fh, Cluster(Opened(fs), seq(n, _ => Opened(fh))), [], fs, fh)
      && fs <= BucketStart(c, Latest(batch))
  {
    var fs := BucketStart(c, batch[0].event.ts);
    var fh := BucketStart(c, Earliest(batch));
    EarliestIsLeast(batch, 0);
    BucketStartMonotone(c, Earliest(batch), batch[0].event.ts);
    BucketStartMonotone(c, batch[0].event.ts, Latest(batch));
    OpenedFaithful(c, fs);
    OpenedFaithful(c, fh);
    OpeningSingle(c, batch);
    OpenOnce(c, fh);
    var o := Cluster(Opened(fs), seq(n, _ => Opened(fh)));
    assert Drain(k.single) == Unopened && Drain(o.single) == o.single;
    forall i | 0 <= i < n
      ensures FeedShard(c, Drain(k.shards[i]), batch, i) == FeedShard(c, Drain(o.shards[i]), batch, i)
    {
      assert Drain(k.shards[i]) == Unopened;
    }
  }

  // --- whole streams ---

  /** Where both engines stand between batches, from bucket starts alone. */
  datatype Standing = NotOpen | Open(fs: nat, fh: nat, back: nat)

  function Where(c: Config, batches: seq<Batch>): Standing
    requires c.Valid()
  {
    if batches == [] then NotOpen
    else
      var batch := batches[|batches| - 1];
      var before := Where(c, batches[..|batches| - 1]);
      if batch == [] then before
      else
        match before
        case NotOpen =>
          var fs := BucketStart(c, batch[0].event.ts);
          Open(fs, BucketStart(c, Earliest(batch)), Stand(c, fs, batch))
        case Open(fs, fh, back) => Open(fs, fh, Stand(c, back, batch))
  }

  /** How a batch is routed, given where the engines stood before it. */
  function BatchRoutes(c: Config, before: Standing, batch: Batch): seq<Routed>
    requires c.Valid()
  {
    if batch == [] then []
    else
      var earliest := BucketStart(c, Earliest(batch));
      match before
      case NotOpen => Routes(c, BucketStart(c, batch[0].event.ts), earliest, batch)
      case Open(_, _, back) => Routes(c, back, Max(back, earliest), batch)
  }

  function StreamRoutes(c: Config, batches: seq<Batch>): seq<Routed>
    requires c.Valid()
  {
    if batches == [] then []
    else
      var init := batches[..|batches| - 1];
      StreamRoutes(c, init) + BatchRoutes(c, Where(c, init), batches[|batches| - 1])
  }

  /** No filter and every event sent to an existing shard. */
  ghost predicate Dispatched(c: Config, n: nat, batches: seq<Batch>) {
    forall j :: 0 <= j < |batches| ==> forall s :: s in batches[j] ==> c.filter(s.event) && s.shard < n
  }

  ghost predicate StreamHolds(c: Config, n: nat, batches: seq<Batch>)
    requires c.Valid()
  {
    var k := Feed(c, n, batches);
    && |k.shards| == n
    && Ordered(c, StreamRoutes(c, batches))
    && match Where(c, batches)
       case NotOpen =>
         && StreamRoutes(c, batches) == []
         && k.single.ring == [] && k.single.late == 0 && k.single.emitted == []
         && forall i :: 0 <= i < n ==> k.shards[i].ring == [] && k.shards[i].late == 0 && k.shards[i].emitted == []
       case Open(fs, fh, back) =>
         Synced(c, fs, fh, k, StreamRoutes(c, batches), back, back)
  }

  /** What one more batch adds, when it holds events. */
  ghost predicate BatchHolds(c: Config, n: nat, before: seq<Batch>, batch: Batch)
    requires c.Valid()
  {
    var r := Feed(c, n, before + [batch]);
    var m, more := StreamRoutes(c, before), BatchRoutes(c, Where(c, before), batch);
    var after := Where(c, before + [batch]);
    after.Open? &&
    var bs := if Where(c, before).Open? then Where(c, before).back else after.fs;
    var bh := if Where(c, before).Open? then Where(c, before).back else after.fh;
    && Aligned(c, after.fs) && Aligned(c, after.fh) && Aligned(c, after.back)
    && after.fh <= after.fs <= bs <= after.back && after.fh <= bh <= bs
    && (bs == bh || m == [])
    && (forall r :: r in m ==> r.single <= bs)
    && (forall r :: r in more ==> bs <= r.single <= after.back && bh <= r.own)
    && ReportsLog(c, after.fs, bs, after.back, r.single.emitted, SingleLog(m + more))
    && ReportsLog(c, after.fh, bh, after.back, AllEmitted(r.shards), OwnLog(m + more))
  }

  lemma {:induction false} FeedSnoc(c: Config, n: nat, before: seq<Batch>, batch: Batch)
    requires c.Valid()
    ensures Feed(c, n, before + [batch]) == FeedBatch(c, Feed(c, n, before), batch)
    ensures StreamRoutes(c, before + [batch]) == StreamRoutes(c, before) + BatchRoutes(c, Where(c, before), batch)
    ensures batch == [] ==> Where(c, before + [batch]) == Where(c, before)
    ensures batch == [] ==> StreamRoutes(c, before + [batch]) == StreamRoutes(c, before)
  {
    assert (before + [batch])[..|before|] == before;
  }

  lemma {:induction false} OrderedRoutes(c: Config, m: seq<Routed>, bs: nat, seed: nat, batch: Batch)
    requires c.Valid() && Ordered(c, m) && Aligned(c, bs) && Aligned(c, seed)
    requires batch != [] ==> seed <= Max(bs, BucketStart(c, batch[0].event.ts))
    ensures Ordered(c, m + Routes(c, bs, seed, batch))
  {
    RoutesOrdered(c, bs, seed, batch);
  }

  lemma {:induction false} StepFromOpen(c: Config, n: nat, before: seq<Batch>, batch: Batch)
    requires c.Valid() && StreamHolds(c, n, before) && Where(c, before).Open? && batch != []
    requires forall s :: s in batch ==> c.filter(s.event) && s.shard < n
    ensures StreamHolds(c, n, before + [batch]) && BatchHolds(c, n, before, batch)
  {
    hide Faithful, StandsAt, ReportsLog, Routes, FeedSingle, FeedShard, BucketStart, Aligned;
    var w := Where(c, before);
    var k, m := Feed(c, n, before), StreamRoutes(c, before);
    FeedSnoc(c, n, before, batch);
    assert (before + [batch])[..|before|] == before;
    FeedBatchSynced(c, w.fs, w.fh, k, m, batch, w.back, w.back);
    ShardsCatchUp(c, batch, w.back, w.back, 0);
    var seed := Max(w.back, BucketStart(c, Earliest(batch)));
    OrderedRoutes(c, m, w.back, seed, batch);
    RoutesOrdered(c, w.back, seed, batch);
    RoutesBelow(c, w.back, seed, batch);
    assert StreamHolds(c, n, before + [batch]);
  }

  lemma {:induction false} StepOpening(c: Config, n: nat, before: seq<Batch>, batch: Batch)
    requires c.Valid() && StreamHolds(c, n, before) && Where(c, before).NotOpen? && batch != []
    requires forall s :: s in batch ==> c.filter(s.event) && s.shard < n
    ensures StreamHolds(c, n, before + [batch]) && BatchHolds(c, n, before, batch)
  {
    hide Faithful, StandsAt, ReportsLog, Routes, FeedSingle, FeedShard, BucketStart, Aligned;
    var k := Feed(c, n, before);
    FeedSnoc(c, n, before, batch);
    assert (before + [batch])[..|before|] == before;
    OpeningBatch(c, n, k, batch);
    var fs, fh := BucketStart(c, batch[0].event.ts), BucketStart(c, Earliest(batch));
    var start := Cluster(Opened(fs), seq(n, _ => Opened(fh)));
    FeedBatchSynced(c, fs, fh, start, [], batch, fs, fh);
    ShardsCatchUp(c, batch, fs, fh, 0);
    OrderedRoutes(c, [], fs, fh, batch);
    RoutesOrdered(c, fs, fh, batch);
    RoutesBelow(c, fs, fh, batch);
  }

  lemma {:induction false} StepEmpty(c: Config, n: nat, before: seq<Batch>, batch: Batch)
    requires c.Valid() && StreamHolds(c, n, before) && batch == []
    ensures StreamHolds(c, n, before + [batch])
    ensures ReportsAgree(Feed(c, n, before + [batch]))
  {
    hide Synced, Feed, StreamRoutes, Where;
    FeedSnoc(c, n, before, batch);
    var k := Feed(c, n, before);
    var r := FeedBatch(c, k, batch);
    assert r.single == Drain(k.single) && forall i :: 0 <= i < n ==> r.shards[i] == Drain(k.shards[i]);
    NothingEmittedTogether(r.shards);
    if Where(c, before).Open? {
      var w := Where(c, before);
      DrainKeepsSynced(c, w.fs, w.fh, k, StreamRoutes(c, before), w.back, r);
    }
  }

  lemma {:induction false} DrainKeepsSynced(c: Config, fs: nat, fh: nat, k: Cluster, m: seq<Routed>, back: nat, r: Cluster)
    requires c.Valid() && Synced(c, fs, fh, k, m, back, back)
    requires r.single == Drain(k.single) && |r.shards| == |k.shards|
    requires forall i :: 0 <= i < |k.shards| ==> r.shards[i] == Drain(k.shards[i])
    ensures Synced(c, fs, fh, r, m, back, back)
  {
    hide Faithful;
  }

  lemma {:induction false} NothingEmittedTogether(shards: seq<Query>)
    requires forall i :: 0 <= i < |shards| ==> shards[i].emitted == []
    ensures AllEmitted(shards) == []
  {
    if shards != [] {
      NothingEmittedTogether(shards[..|shards| - 1]);
    }
  }

  lemma {:induction false} StreamInvariant(c: Config, n: nat, batches: seq<Batch>)
    requires c.Valid() && Dispatched(c, n, batches)
    ensures StreamHolds(c, n, batches)
  {
    hide StreamHolds;
    if batches == [] {
      StreamStarts(c, n);
    } else {
      var before, batch := batches[..|batches| - 1], batches[|batches| - 1];
      assert batches == before + [batch];
      StreamInvariant(c, n, before);
      if batch == [] {
        StepEmpty(c, n, before, batch);
      } else if Where(c, before).Open? {
        StepFromOpen(c, n, before, batch);
      } else {
        StepOpening(c, n, before, batch);
      }
    }
  }

  lemma {:induction false} StreamStarts(c: Config, n: nat)
    requires c.Valid()
    ensures StreamHolds(c, n, [])
  {
  }

  /** Every drain so far reported the same on both sides. */
  ghost predicate AllAgree(c: Config, n: nat, batches: seq<Batch>)
    requires c.Valid()
  {
    forall j :: 0 < j <= |batches| ==> ReportsAgree(Feed(c, n, batches[..j]))
  }

  lemma {:induction false} AllAgreeSnoc(c: Config, n: nat, before: seq<Batch>, batch: Batch)
    requires c.Valid()
    ensures AllAgree(c, n, before + [batch])
       <==> AllAgree(c, n, before) && ReportsAgree(Feed(c, n, before + [batch]))
  {
    hide Feed, ReportsAgree;
    var batches := before + [batch];
    assert batches[..|batches|] == batches;
    assert forall j :: 0 < j <= |before| ==> batches[..j] == before[..j];
    if AllAgree(c, n, batches) {
      assert forall j :: 0 < j <= |before| ==> ReportsAgree(Feed(c, n, batches[..j]));
    }
  }

  ghost predicate AllInStep(c: Config, fh: nat, m: seq<Routed>) {
    forall r :: r in m ==> InStep(c, fh, r)
  }

  /** Opened together, the drains agree exactly while every event is in step. */
  lemma {:induction false} AgreeWhileInStep(c: Config, n: nat, batches: seq<Batch>)
    requires c.Valid() && Dispatched(c, n, batches)
    requires Where(c, batches).Open? ==> SameOpening(c, Where(c, batches).fs, Where(c, batches).fh)
    ensures var w := Where(c, batches);
      AllAgree(c, n, batches) <==> (w.Open? ==> AllInStep(c, w.fh, StreamRoutes(c, batches)))
  {
    hide ReportsAgree, Feed, BatchRoutes, ReportsLog, InStep, StreamHolds;
    if batches != [] {
      var before, batch := batches[..|batches| - 1], batches[|batches| - 1];
      assert batches == before + [batch];
      AgreeWhileInStep(c, n, before);
      AllAgreeSnoc(c, n, before, batch);
      FeedSnoc(c, n, before, batch);
      StreamInvariant(c, n, before);
      if batch == [] {
        StepEmpty(c, n, before, batch);
      } else {
        BatchDecides(c, n, before, batch);
        NotOpenNoRoutes(c, n, before);
      }
    }
  }

  lemma {:induction false} NotOpenNoRoutes(c: Config, n: nat, before: seq<Batch>)
    requires c.Valid() && StreamHolds(c, n, before)
    ensures Where(c, before).NotOpen? ==> StreamRoutes(c, before) == []
  {
  }

  lemma {:induction false} BatchDecides(c: Config, n: nat, before: seq<Batch>, batch: Batch)
    requires c.Valid() && StreamHolds(c, n, before) && batch != []
    requires forall s :: s in batch ==> c.filter(s.event) && s.shard < n
    requires Where(c, before + [batch]).Open?
    requires SameOpening(c, Where(c, before + [batch]).fs, Where(c, before + [batch]).fh)
    ensures var after := Where(c, before + [batch]);
      ReportsAgree(Feed(c, n, before + [batch]))
      <==> AllInStep(c, after.fh, BatchRoutes(c, Where(c, before), batch))
  {
    hide ReportsLog, InStep, Faithful, StandsAt, BucketStart, Aligned, SameReport, Feed, Routes, AllEmitted;
    if Where(c, before).Open? {
      StepFromOpen(c, n, before, batch);
    } else {
      StepOpening(c, n, before, batch);
    }
    var after := Where(c, before + [batch]);
    var m, more := StreamRoutes(c, before), BatchRoutes(c, Where(c, before), batch);
    var bs := if Where(c, before).Open? then Where(c, before).back else after.fs;
    var bh := if Where(c, before).Open? then Where(c, before).back else after.fh;
    var r := Feed(c, n, before + [batch]);
    FeedSnoc(c, n, before, batch);
    BatchAgreement(c, after.fs, after.fh, m, more, bs, bh, after.back, r.single.emitted, AllEmitted(r.shards));
  }

  // --- engines that opened on different buckets ---

  /** The event the single engine opened with. */
  ghost predicate HasOpener(c: Config, fs: nat, m: seq<Routed>) {
    exists r :: r in m && r.bucket == fs && r.single == fs
  }

  lemma {:induction false} RoutesOpen(c: Config, fs: nat, bh: nat, batch: Batch)
    requires c.Valid() && batch != [] && BucketStart(c, batch[0].event.ts) == fs
    ensures HasOpener(c, fs, Routes(c, fs, bh, batch))
  {
    hide BucketStart;
    if |batch| == 1 {
      var m := Routes(c, fs, bh, batch);
      assert Stand(c, fs, batch[..0]) == fs;
      assert Routes(c, fs, bh, batch[..0]) == [];
      assert m[0] in m;
    } else {
      var init := batch[..|batch| - 1];
      RoutesOpen(c, fs, bh, init);
      var r :| r in Routes(c, fs, bh, init) && r.bucket == fs && r.single == fs;
      assert r in Routes(c, fs, bh, batch);
    }
  }

  lemma {:induction false} StreamHasOpener(c: Config, batches: seq<Batch>)
    requires c.Valid() && Where(c, batches).Open?
    ensures HasOpener(c, Where(c, batches).fs, StreamRoutes(c, batches))
  {
    hide Routes;
    var before, batch := batches[..|batches| - 1], batches[|batches| - 1];
    if Where(c, before).Open? {
      StreamHasOpener(c, before);
      var fs := Where(c, before).fs;
      var r :| r in StreamRoutes(c, before) && r.bucket == fs && r.single == fs;
      assert r in StreamRoutes(c, batches);
    } else {
      var fs, fh := BucketStart(c, batch[0].event.ts), BucketStart(c, Earliest(batch));
      RoutesOpen(c, fs, fh, batch);
      var r :| r in Routes(c, fs, fh, batch) && r.bucket == fs && r.single == fs;
      assert r in StreamRoutes(c, batches);
    }
  }

  lemma {:induction false} CoveredHas(m: seq<Routed>, r: Routed, lo: nat, end: nat)
    requires r in m && lo <= r.bucket && r.single < end
    ensures r.event in Covered(SingleLog(m), lo, end)
  {
    var last := m[|m| - 1];
    CoveredSnoc(SingleLog(m[..|m| - 1]), Arrival(last.event, last.bucket, last.single), lo, end);
    if r != last {
      assert r in m[..|m| - 1];
      CoveredHas(m[..|m| - 1], r, lo, end);
    }
  }

  /** When the first window closes, its start tells the engines apart. */
  lemma {:induction false} OpeningShows(c: Config, fs: nat, fh: nat, m: seq<Routed>, bh: nat, back: nat,
                                        single: seq<Window>, shards: seq<Window>)
    requires c.Valid() && Aligned(c, fs) && Aligned(c, back) && fh <= fs < back && !SameOpening(c, fs, fh)
    requires HasOpener(c, fs, m)
    requires ReportsLog(c, fs, fs, back, single, SingleLog(m))
    requires ReportsLog(c, fh, bh, back, shards, OwnLog(m))
    ensures !SameReport(single, shards)
  {
    hide Covered, EventsAt;
    var end := fs + c.slide;
    AlignedGap(fs, back, c.slide);
    AlignedStep(fs, c.slide);
    MulMonotone(2, c.buckets, c.slide);
    var key: Bounds := (fs, end);
    assert OnGrid(c, fs, fs, back, key);
    assert !OnGrid(c, fh, bh, back, key);
    var r :| r in m && r.bucket == fs && r.single == fs;
    CoveredHas(m, r, fs, end);
    assert r.event in EventsAt(single, key);
  }

  lemma {:induction false} DifferentOpeningsShow(c: Config, n: nat, batches: seq<Batch>)
    requires c.Valid() && Dispatched(c, n, batches) && Where(c, batches).Open?
    requires !SameOpening(c, Where(c, batches).fs, Where(c, batches).fh)
    requires Where(c, batches).fs < Where(c, batches).back
    ensures !AllAgree(c, n, batches)
  {
    hide ReportsAgree, Feed, BatchRoutes, ReportsLog, StreamHolds, BatchHolds, Stand, BucketStart;
    var before, batch := batches[..|batches| - 1], batches[|batches| - 1];
    assert batches == before + [batch];
    AllAgreeSnoc(c, n, before, batch);
    FeedSnoc(c, n, before, batch);
    StreamInvariant(c, n, before);
    var w := Where(c, before);
    if batch == [] || (w.Open? && w.fs < w.back) {
      DifferentOpeningsShow(c, n, before);
    } else {
      OpeningBatchShows(c, n, before, batch);
    }
  }

  lemma {:induction false} OpeningBatchShows(c: Config, n: nat, before: seq<Batch>, batch: Batch)
    requires c.Valid() && StreamHolds(c, n, before) && batch != []
    requires forall s :: s in batch ==> c.filter(s.event) && s.shard < n
    requires var after := Where(c, before + [batch]);
      after.Open? && !SameOpening(c, after.fs, after.fh) && after.fs < after.back
    requires Where(c, before).Open? ==> Where(c, before).back <= Where(c, before).fs
    ensures !ReportsAgree(Feed(c, n, before + [batch]))
  {
    hide ReportsLog, BucketStart, SameReport, Stand, StreamHolds, Feed, StreamRoutes, BatchRoutes, AllEmitted;
    if Where(c, before).Open? {
      StepFromOpen(c, n, before, batch);
    } else {
      StepOpening(c, n, before, batch);
    }
    assert (before + [batch])[..|before|] == before;
    var after := Where(c, before + [batch]);
    var r := Feed(c, n, before + [batch]);
    var bh := if Where(c, before).Open? then Where(c, before).back else after.fh;
    FeedSnoc(c, n, before, batch);
    StreamHasOpener(c, before + [batch]);
    OpeningShows(c, after.fs, after.fh, StreamRoutes(c, before + [batch]), bh, after.back, r.single.emitted, AllEmitted(r.shards));
  }

  // --- end of stream ---

  lemma {:induction false} TrailingReport(c: Config, first: nat, log: seq<Arrival>, q: Query, back: nat, key: Bounds)
    requires c.Valid() && Aligned(c, back) && StandsAt(c, first, log, q, back)
    ensures EventsAt(Finish(c, Drain(q)).emitted, key)
         == if OnGrid(c, first, back, back + c.slide, key) then Covered(log, key.0, key.1) else multiset{}
  {
    hide Covered, WindowStart;
    FlushMeaning(c, q.ring, first, log);
    AlignedStep(back, c.slide);
    if back < key.1 < back + c.slide && Aligned(c, key.1) {
      AlignedGap(back, key.1, c.slide);
    }
    EventsAtOne(TrailingWindow(c, q.ring), key);
    assert [] + [TrailingWindow(c, q.ring)] == [TrailingWindow(c, q.ring)];
  }

  lemma {:induction false} CloseReports(c: Config, fs: nat, fh: nat, k: Cluster, m: seq<Routed>, back: nat)
    requires c.Valid() && Synced(c, fs, fh, k, m, back, back)
    ensures ReportsLog(c, fs, back, back + c.slide, Close(c, k).single.emitted, SingleLog(m))
    ensures ReportsLog(c, fh, back, back + c.slide, AllEmitted(Close(c, k).shards), OwnLog(m))
  {
    hide EventsAt, Covered, OnGrid, StandsAt, Finish;
    var r := Close(c, k);
    forall key: Bounds
      ensures EventsAt(r.single.emitted, key)
           == if OnGrid(c, fs, back, back + c.slide, key) then Covered(SingleLog(m), key.0, key.1) else multiset{}
      ensures EventsAt(AllEmitted(r.shards), key)
           == if OnGrid(c, fh, back, back + c.slide, key) then Covered(OwnLog(m), key.0, key.1) else multiset{}
    {
      TrailingReport(c, fs, SingleLog(m), k.single, back, key);
      forall i | 0 <= i < |k.shards|
        ensures EventsAt(r.shards[i].emitted, key)
             == if OnGrid(c, fh, back, back + c.slide, key) then Covered(ShardLog(m, i), key.0, key.1) else multiset{}
      {
        TrailingReport(c, fh, ShardLog(m, i), k.shards[i], back, key);
      }
      ShardsTogether(r.shards, m, key, OnGrid(c, fh, back, back + c.slide, key));
      AllShards(m, key.0, key.1, |r.shards|);
    }
  }

  lemma {:induction false} CloseAgrees(c: Config, n: nat, batches: seq<Batch>)
    requires c.Valid() && StreamHolds(c, n, batches) && Where(c, batches).Open?
    requires SameOpening(c, Where(c, batches).fs, Where(c, batches).fh)
    ensures ReportsAgree(Close(c, Feed(c, n, batches)))
  {
    hide ReportsLog, StandsAt, SameReport, Feed, Close, SameOpening;
    var w := Where(c, batches);
    var k, m := Feed(c, n, batches), StreamRoutes(c, batches);
    var r := Close(c, k);
    CloseReports(c, w.fs, w.fh, k, m, w.back);
    AlignedStep(w.back, c.slide);
    assert m + [] == m;
    BatchAgreement(c, w.fs, w.fh, m, [], w.back, w.back, w.back + c.slide, r.single.emitted, AllEmitted(r.shards));
  }

  lemma {:induction false} CloseDisagrees(c: Config, n: nat, batches: seq<Batch>)
    requires c.Valid() && StreamHolds(c, n, batches) && Where(c, batches).Open?
    requires !SameOpening(c, Where(c, batches).fs, Where(c, batches).fh)
    requires Where(c, batches).fs == Where(c, batches).back
    ensures !ReportsAgree(Close(c, Feed(c, n, batches)))
  {
    hide ReportsLog, StandsAt, SameReport, Feed, Close, SameOpening;
    var w := Where(c, batches);
    var k, m := Feed(c, n, batches), StreamRoutes(c, batches);
    var r := Close(c, k);
    CloseReports(c, w.fs, w.fh, k, m, w.back);
    AlignedStep(w.back, c.slide);
    StreamHasOpener(c, batches);
    OpeningShows(c, w.fs, w.fh, m, w.back, w.back + c.slide, r.single.emitted, AllEmitted(r.shards));
  }

  /** Sharding a stream changes no report, neither at any drain nor at the end of
      the stream, if and only if both engines opened on the same bucket and every
      event was in step. The condition is computed from bucket starts and the
      dispatch alone (StreamRoutes), without running either engine. */
  lemma {:induction false} ShardingAgrees(c: Config, n: nat, batches: seq<Batch>)
    requires c.Valid() && Dispatched(c, n, batches)
    ensures var w := Where(c, batches);
      AllAgree(c, n, batches) && ReportsAgree(Close(c, Feed(c, n, batches)))
      <==> (w.Open? ==> SameOpening(c, w.fs, w.fh) && AllInStep(c, w.fh, StreamRoutes(c, batches)))
  {
    hide ReportsAgree, Feed, StreamHolds, SameOpening, AllInStep, AllAgree, Close;
    StreamInvariant(c, n, batches);
    var w := Where(c, batches);
    if w.NotOpen? {
      AgreeWhileInStep(c, n, batches);
      NeverOpened(c, n, batches);
    } else {
      BackNotBeforeOpening(c, n, batches);
      if SameOpening(c, w.fs, w.fh) {
        CloseAgrees(c, n, batches);
        AgreeWhileInStep(c, n, batches);
      } else if w.fs < w.back {
        DifferentOpeningsShow(c, n, batches);
      } else {
        CloseDisagrees(c, n, batches);
      }
    }
  }

  lemma {:induction false} BackNotBeforeOpening(c: Config, n: nat, batches: seq<Batch>)
    requires c.Valid() && StreamHolds(c, n, batches) && Where(c, batches).Open?
    ensures Where(c, batches).fs <= Where(c, batches).back
  {
  }

  lemma {:induction false} NeverOpened(c: Config, n: nat, batches: seq<Batch>)
    requires c.Valid() && StreamHolds(c, n, batches) && Where(c, batches).NotOpen?
    ensures ReportsAgree(Close(c, Feed(c, n, batches)))
  {
    NothingEmittedTogether(Close(c, Feed(c, n, batches)).shards);
  }
}
