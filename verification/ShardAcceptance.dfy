/** Which streams a sharded engine and a single one take in without refusing a call, when
    both are drained between batches. */
module ShardAcceptance {
  import opened Arithmetic
  import opened QuerySpec
  import opened ShardAgreement
  import opened ShardCalls
  import opened ShardTheorem
  import opened Sharding
  import opened WindowMeaning
  import opened WindowRing

  /** Neither engine refuses any of the calls it gets for the batch. */
  ghost predicate BatchAccepted(c: Config, k: Cluster, batch: Batch)
    requires c.Valid()
  {
    && CanAll(c, Drain(k.single), Whole(batch))
    && forall i :: 0 <= i < |k.shards| ==> CanAll(c, Drain(k.shards[i]), Share(batch, i))
  }

  ghost predicate StreamAccepted(c: Config, n: nat, batches: seq<Batch>)
    requires c.Valid()
  {
    batches == [] || (StreamAccepted(c, n, batches[..|batches| - 1])
                      && BatchAccepted(c, Feed(c, n, batches[..|batches| - 1]), batches[|batches| - 1]))
  }

  ghost predicate CloseAccepted(c: Config, k: Cluster) {
    && CanFinish(c, Drain(k.single))
    && forall i :: 0 <= i < |k.shards| ==> CanFinish(c, Drain(k.shards[i]))
  }

  /** `Feed` is what accepted calls do: after a drain, the one engine gets the whole batch
      and every shard its share. */
  lemma {:induction false} FeedIsCalls(c: Config, n: nat, before: seq<Batch>, batch: Batch)
    requires c.Valid()
    ensures var k, r := Feed(c, n, before), Feed(c, n, before + [batch]);
      && r.single == DoAll(c, Drain(k.single), Whole(batch)) && |r.shards| == |k.shards|
      && forall i :: 0 <= i < |r.shards| ==> r.shards[i] == DoAll(c, Drain(k.shards[i]), Share(batch, i))
  {
    hide FeedShard, FeedSingle, Share, Whole;
    var k := Feed(c, n, before);
    FeedSnoc(c, n, before, batch);
    WholeIsFeedSingle(c, Drain(k.single), batch);
    forall i | 0 <= i < |k.shards|
      ensures DoAll(c, Drain(k.shards[i]), Share(batch, i)) == FeedShard(c, Drain(k.shards[i]), batch, i)
    {
      ShareIsFeedShard(c, Drain(k.shards[i]), batch, i);
    }
  }

  /** Where the engines stand when the batch arrives, or where they open. */
  function Entry(c: Config, before: seq<Batch>, batch: Batch): nat
    requires c.Valid() && batch != []
  {
    match Where(c, before)
    case NotOpen => BucketStart(c, Earliest(batch))
    case Open(_, _, back) => back
  }

  /** The batch's watermark is at most `capacity` slides ahead. */
  ghost predicate Short(c: Config, before: seq<Batch>, batch: Batch)
    requires c.Valid()
  {
    batch != [] ==> BucketStart(c, Latest(batch)) <= Entry(c, before, batch) + c.capacity * c.slide
  }

  lemma {:induction false} CallsWithin(c: Config, batch: Batch, i: nat)
    requires c.Valid() && batch != []
    ensures forall t :: 0 <= t < |Share(batch, i)| ==>
      BucketStart(c, Earliest(batch)) <= BucketStart(c, TimeOf(Share(batch, i)[t])) <= BucketStart(c, Latest(batch))
    ensures forall t :: 0 <= t < |Whole(batch)| ==>
      BucketStart(c, Earliest(batch)) <= BucketStart(c, TimeOf(Whole(batch)[t])) <= BucketStart(c, Latest(batch))
  {
    hide BucketStart, Earliest, Latest;
    forall t | 0 <= t < |Whole(batch)|
      ensures BucketStart(c, Earliest(batch)) <= BucketStart(c, TimeOf(Whole(batch)[t])) <= BucketStart(c, Latest(batch))
    {
      StartWithin(c, batch, t);
    }
    var own := OwnEvents(batch, i);
    StartWithin(c, batch, 0);
    forall t | 0 <= t < |Share(batch, i)|
      ensures BucketStart(c, Earliest(batch)) <= BucketStart(c, TimeOf(Share(batch, i)[t])) <= BucketStart(c, Latest(batch))
    {
      if 1 <= t <= |own| {
        var j := OwnFrom(batch, i, t - 1);
        StartWithin(c, batch, j);
      }
    }
  }

  lemma {:induction false} OwnFrom(batch: Batch, i: nat, t: nat) returns (j: nat)
    requires t < |OwnEvents(batch, i)|
    ensures j < |batch| && batch[j].event == OwnEvents(batch, i)[t]
  {
    var init := batch[..|batch| - 1];
    if t < |OwnEvents(init, i)| {
      j := OwnFrom(init, i, t);
    } else {
      j := |batch| - 1;
    }
  }

  lemma {:induction false} StartWithin(c: Config, batch: Batch, j: nat)
    requires c.Valid() && j < |batch|
    ensures BucketStart(c, Earliest(batch)) <= BucketStart(c, batch[j].event.ts) <= BucketStart(c, Latest(batch))
  {
    hide BucketStart, Earliest, Latest;
    EarliestIsLeast(batch, j);
    BucketStartMonotone(c, Earliest(batch), batch[j].event.ts);
    BucketStartMonotone(c, batch[j].event.ts, Latest(batch));
  }

  /** A drained engine has paid for nothing yet. */
  lemma {:induction false} DrainedPaid(c: Config, q: Query, low: nat, high: nat)
    requires c.Valid() && low <= high
    requires q.ring != [] ==> Contiguous(c, q.ring) && Back(q.ring) == low
    ensures Paid(c, Drain(q), low, high)
  {
    assert 0 * c.slide == 0;
  }

  lemma {:induction false} EngineStands(c: Config, n: nat, before: seq<Batch>)
    requires c.Valid() && Dispatched(c, n, before)
    ensures var k, w := Feed(c, n, before), Where(c, before);
      && |k.shards| == n
      && (w.NotOpen? ==> k.single.ring == [] && forall i :: 0 <= i < n ==> k.shards[i].ring == [])
      && (w.Open? ==> Stood(c, k.single, w.back) && forall i :: 0 <= i < n ==> Stood(c, k.shards[i], w.back))
  {
    hide Feed, Where, StreamRoutes, Logged, WindowStart, InBucket;
    StreamInvariant(c, n, before);
    var k, w := Feed(c, n, before), Where(c, before);
    if w.Open? {
      forall i | 0 <= i < n
        ensures Stood(c, k.shards[i], w.back)
      {
        assert StandsAt(c, w.fh, ShardLog(StreamRoutes(c, before), i), k.shards[i], w.back);
      }
    }
  }

  ghost predicate Stood(c: Config, q: Query, back: nat)
    requires c.Valid()
  {
    q.ring != [] && Contiguous(c, q.ring) && Back(q.ring) == back
  }

  lemma {:induction false} QueryAccepts(c: Config, q: Query, calls: seq<Call>, w: Standing, earliest: nat, latest: nat)
    requires c.Valid() && (if w.NotOpen? then q.ring == [] else Stood(c, q, w.back))
    requires forall t :: 0 <= t < |calls| ==> earliest <= BucketStart(c, TimeOf(calls[t])) <= latest
    requires earliest <= latest <= (if w.NotOpen? then earliest else w.back) + c.capacity * c.slide
    ensures CanAll(c, Drain(q), calls)
  {
    hide BucketStart, Paid, CanAll, Contiguous, Drain;
    var low := if w.NotOpen? then earliest else w.back;
    var high := Max(low, latest);
    DrainedPaid(c, q, low, high);
    DrainKeeps(q);
    ShortBatchAccepted(c, Drain(q), calls, low, high);
  }

  lemma {:induction false} DrainKeeps(q: Query)
    ensures Drain(q).ring == q.ring
  {
  }

  /** An unfiltered stream of short batches is taken in whole by both engines; with the
      planned capacity, a batch may go as many slides ahead as a window has buckets. */
  lemma {:induction false} ShortBatchesAccepted(c: Config, n: nat, batches: seq<Batch>)
    requires c.Valid() && Dispatched(c, n, batches)
    requires forall j :: 0 <= j < |batches| ==> Short(c, batches[..j], batches[j])
    ensures StreamAccepted(c, n, batches)
  {
    hide Short, BatchAccepted;
    if batches != [] {
      var before, batch := batches[..|batches| - 1], batches[|batches| - 1];
      forall j | 0 <= j < |before|
        ensures Short(c, before[..j], before[j])
      {
        assert before[..j] == batches[..j];
        assert Short(c, batches[..j], batches[j]);
      }
      ShortBatchesAccepted(c, n, before);
      assert Short(c, batches[..|batches| - 1], batches[|batches| - 1]);
      ShortAccepted(c, n, before, batch);
    }
  }

  lemma {:induction false} ShortAccepted(c: Config, n: nat, before: seq<Batch>, batch: Batch)
    requires c.Valid() && Dispatched(c, n, before) && Short(c, before, batch)
    ensures BatchAccepted(c, Feed(c, n, before), batch)
  {
    hide Feed, Where, CanAll, BucketStart, Drain, Share, Whole, Stood, Earliest, Latest;
    var k, w := Feed(c, n, before), Where(c, before);
    EngineStands(c, n, before);
    if batch == [] {
      NoCalls(c, k);
    } else {
      StartWithin(c, batch, 0);
      var earliest, latest := BucketStart(c, Earliest(batch)), BucketStart(c, Latest(batch));
      CallsWithin(c, batch, 0);
      QueryAccepts(c, k.single, Whole(batch), w, earliest, latest);
      forall i | 0 <= i < n
        ensures CanAll(c, Drain(k.shards[i]), Share(batch, i))
      {
        CallsWithin(c, batch, i);
        QueryAccepts(c, k.shards[i], Share(batch, i), w, earliest, latest);
      }
    }
  }

  lemma {:induction false} NoCalls(c: Config, k: Cluster)
    requires c.Valid()
    ensures BatchAccepted(c, k, [])
  {
  }
}
