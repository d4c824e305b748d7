/** The condition of ShardingAgrees on ordered streams, and a stream it refuses. */
module ShardCorollaries {
  import opened Arithmetic
  import opened WindowRing
  import opened WindowMeaning
  import opened WindowRuns
  import opened Sharding
  import opened ShardAcceptance
  import opened ShardAgreement
  import opened ShardTheorem

  function StartOf(c: Config, s: Sent): nat
    requires c.Valid()
  {
    BucketStart(c, s.event.ts)
  }

  ghost predicate BatchInOrder(c: Config, batch: Batch)
    requires c.Valid()
  {
    forall i, l :: 0 <= i < l < |batch| ==> StartOf(c, batch[i]) <= StartOf(c, batch[l])
  }

  /** A stream whose buckets never go back, within a batch or across batches. */
  ghost predicate InOrder(c: Config, batches: seq<Batch>)
    requires c.Valid()
  {
    && (forall j :: 0 <= j < |batches| ==> BatchInOrder(c, batches[j]))
    && (forall j, l, s, t :: 0 <= j < l < |batches| && s in batches[j] && t in batches[l] ==>
          StartOf(c, s) <= StartOf(c, t))
  }

  lemma {:induction false} OrderedStand(c: Config, entry: nat, batch: Batch)
    requires c.Valid() && batch != [] && BatchInOrder(c, batch) && entry <= StartOf(c, batch[0])
    ensures Stand(c, entry, batch) == StartOf(c, batch[|batch| - 1])
  {
    hide BucketStart;
    var init := batch[..|batch| - 1];
    if |batch| == 1 {
      assert Stand(c, entry, init) == entry;
    } else {
      OrderedStand(c, entry, init);
      assert StartOf(c, init[|init| - 1]) <= StartOf(c, batch[|batch| - 1]);
    }
  }

  lemma {:induction false} OrderedRoutesInStep(c: Config, bs: nat, bh: nat, batch: Batch)
    requires c.Valid() && BatchInOrder(c, batch)
    requires batch != [] ==> bs <= StartOf(c, batch[0]) && bh <= StartOf(c, batch[0])
    ensures forall r :: r in Routes(c, bs, bh, batch) ==> r.own == r.single
  {
    hide BucketStart;
    if batch != [] {
      var s := batch[|batch| - 1];
      OrderedRoutesInStep(c, bs, bh, batch[..|batch| - 1]);
      OrderedStand(c, bs, batch);
      OwnBelowStand(c, bs, bh, batch, s.shard);
    }
  }

  lemma {:induction false} EarliestIsSome(batch: Batch) returns (j: nat)
    requires batch != []
    ensures j < |batch| && batch[j].event.ts == Earliest(batch)
  {
    if |batch| == 1 || batch[|batch| - 1].event.ts < Earliest(batch[..|batch| - 1]) {
      j := |batch| - 1;
    } else {
      j := EarliestIsSome(batch[..|batch| - 1]);
    }
  }

  lemma {:induction false} OrderedEarliest(c: Config, batch: Batch)
    requires c.Valid() && batch != [] && BatchInOrder(c, batch)
    ensures BucketStart(c, Earliest(batch)) == StartOf(c, batch[0])
  {
    EarliestIsLeast(batch, 0);
    BucketStartMonotone(c, Earliest(batch), batch[0].event.ts);
    var j := EarliestIsSome(batch);
    assert StartOf(c, batch[0]) <= StartOf(c, batch[j]);
  }

  lemma {:induction false} StartOfIs(c: Config, s: Sent)
    requires c.Valid()
    ensures StartOf(c, s) == BucketStart(c, s.event.ts)
  {
  }

  lemma {:induction false} OrderedStreamInStep(c: Config, batches: seq<Batch>)
    requires c.Valid() && InOrder(c, batches)
    ensures forall r :: r in StreamRoutes(c, batches) ==> r.own == r.single
    ensures var w := Where(c, batches);
      w.Open? ==> w.fs == w.fh && exists j, s :: 0 <= j < |batches| && s in batches[j] && StartOf(c, s) == w.back
  {
    hide BucketStart, Routes, Stand, Earliest, StartOf, BatchInOrder;
    if batches != [] {
      var init, batch := batches[..|batches| - 1], batches[|batches| - 1];
      OrderedStreamInStep(c, init);
      var before := Where(c, init);
      if batch == [] {
        if before.Open? {
          var j, s :| 0 <= j < |init| && s in init[j] && StartOf(c, s) == before.back;
          assert s in batches[j];
        }
      } else {
        var last := batch[|batch| - 1];
        assert last in batches[|batches| - 1] && batch[0] in batches[|batches| - 1];
        StartOfIs(c, batch[0]);
        OrderedEarliest(c, batch);
        match before
        case NotOpen =>
          OrderedStand(c, StartOf(c, batch[0]), batch);
          OrderedRoutesInStep(c, StartOf(c, batch[0]), StartOf(c, batch[0]), batch);
        case Open(_, _, back) =>
          var j, s :| 0 <= j < |init| && s in init[j] && StartOf(c, s) == back;
          assert s in batches[j];
          OrderedStand(c, back, batch);
          OrderedRoutesInStep(c, back, Max(back, StartOf(c, batch[0])), batch);
      }
    }
  }

  /** Any ordered stream, batched and dispatched in any way, is reported by the
      shards exactly as by one engine. */
  lemma {:induction false} OrderedStreamsAgree(c: Config, n: nat, batches: seq<Batch>)
    requires c.Valid() && Dispatched(c, n, batches) && InOrder(c, batches)
    ensures AllAgree(c, n, batches) && ReportsAgree(Close(c, Feed(c, n, batches)))
  {
    hide AllAgree, ReportsAgree, StreamRoutes, Where, Feed;
    OrderedStreamInStep(c, batches);
    ShardingAgrees(c, n, batches);
  }

  lemma {:induction false} StandSnoc(c: Config, entry: nat, batch: Batch, s: Sent, i: nat)
    requires c.Valid()
    ensures Stand(c, entry, batch + [s]) == Max(Stand(c, entry, batch), StartOf(c, s))
    ensures OwnStand(c, entry, batch + [s], i)
         == if s.shard == i then Max(OwnStand(c, entry, batch, i), StartOf(c, s)) else OwnStand(c, entry, batch, i)
  {
    assert (batch + [s])[..|batch|] == batch;
  }

  lemma {:induction false} EarliestSnoc(batch: Batch, s: Sent)
    requires batch != []
    ensures Earliest(batch + [s]) == Min(Earliest(batch), s.event.ts)
  {
    assert (batch + [s])[..|batch|] == batch;
  }

  /** Disorder inside one batch can show: with events at 0 and 10 on one shard and
      then 5 on another, the second shard still has room in the window that the
      single engine closed at 10. No call is refused at the planned capacity. */
  lemma {:induction false} DisorderShows(c: Config, zero: Sent, ten: Sent, five: Sent)
    requires c.slide == 10 && c.capacity == c.buckets == 2 && forall e: FlowEvent :: c.filter(e)
    requires zero == Sent(0, FlowEvent(0, [])) && ten == Sent(0, FlowEvent(10, [])) && five == Sent(1, FlowEvent(5, []))
    ensures var batches := [[zero] + [ten] + [five]];
      && c.Valid() && Dispatched(c, 2, batches)
      && StreamAccepted(c, 2, batches) && CloseAccepted(c, Feed(c, 2, batches))
      && !(AllAgree(c, 2, batches) && ReportsAgree(Close(c, Feed(c, 2, batches))))
  {
    var batch := [zero] + [ten] + [five];
    hide AllAgree, ReportsAgree, Feed, Where, StreamRoutes, Close, BucketStart, StreamAccepted;
    OutOfStep(c, zero, ten, five);
    ShardingAgrees(c, 2, [batch]);
    InOneSlide(c, zero, ten, five);
    ShortBatchesAccepted(c, 2, [batch]);
  }

  lemma {:induction false} InOneSlide(c: Config, zero: Sent, ten: Sent, five: Sent)
    requires c.Valid() && c.slide == 10 && c.capacity == 2
    requires zero.event.ts == 0 && ten.event.ts == 10 && five.event.ts == 5
    ensures var batches := [[zero] + [ten] + [five]];
      forall j :: 0 <= j < |batches| ==> Short(c, batches[..j], batches[j])
  {
    var batch := [zero] + [ten] + [five];
    assert batch[..2] == [zero] + [ten] && batch[..2][..1] == [zero];
    assert |batch| == 3 && batch[2].event.ts == 5;
    assert Latest(batch[..2]) == 10;
    assert Latest(batch) == Max(Latest(batch[..2]), 5);
    var none: seq<Batch> := [];
    assert [batch][..0] == none;
    assert Short(c, none, batch);
  }

  lemma {:induction false} OutOfStep(c: Config, zero: Sent, ten: Sent, five: Sent)
    requires c.Valid() && c.slide == 10 && c.buckets == 2
    requires zero == Sent(0, FlowEvent(0, [])) && ten == Sent(0, FlowEvent(10, [])) && five == Sent(1, FlowEvent(5, []))
    ensures var batches := [[zero] + [ten] + [five]];
      && Where(c, batches).Open?
      && !AllInStep(c, Where(c, batches).fh, StreamRoutes(c, batches))
  {
    var batch := [zero] + [ten] + [five];
    hide Earliest, Stand, OwnStand, Routes, BucketStart;
    StartsInTens(c, zero, ten, five);
    OneEvent(c, zero);
    StandSnoc(c, 0, [zero], ten, 1);
    StandSnoc(c, 0, [zero] + [ten], five, 1);
    EarliestSnoc([zero], ten);
    EarliestSnoc([zero] + [ten], five);
    LastRoute(c, 0, 0, [zero] + [ten], five);
    OneBatch(c, batch);
    var r := Routed(1, five.event, 0, 10, 0);
    assert batch[0] == zero;
    assert !InStep(c, 0, r);
  }

  lemma {:induction false} StartsInTens(c: Config, zero: Sent, ten: Sent, five: Sent)
    requires c.Valid() && c.slide == 10
    requires zero.event.ts == 0 && ten.event.ts == 10 && five.event.ts == 5
    ensures StartOf(c, zero) == 0 && StartOf(c, ten) == 10 && StartOf(c, five) == 0
    ensures BucketStart(c, 0) == 0
  {
  }

  lemma {:induction false} OneEvent(c: Config, s: Sent)
    requires c.Valid() && s.shard == 0
    ensures Earliest([s]) == s.event.ts
    ensures Stand(c, 0, [s]) == StartOf(c, s) && OwnStand(c, 0, [s], 1) == 0
  {
    assert [s][..0] == [];
    assert Stand(c, 0, [s][..0]) == 0 && OwnStand(c, 0, [s][..0], 1) == 0;
  }

  lemma {:induction false} LastRoute(c: Config, bs: nat, bh: nat, batch: Batch, s: Sent)
    requires c.Valid()
    ensures Routed(s.shard, s.event, StartOf(c, s), Stand(c, bs, batch + [s]), OwnStand(c, bh, batch + [s], s.shard))
         in Routes(c, bs, bh, batch + [s])
  {
    assert (batch + [s])[..|batch|] == batch;
  }

  lemma {:induction false} OneBatch(c: Config, batch: Batch)
    requires c.Valid() && batch != []
    ensures var fs, fh := StartOf(c, batch[0]), BucketStart(c, Earliest(batch));
      && Where(c, [batch]) == Open(fs, fh, Stand(c, fs, batch))
      && StreamRoutes(c, [batch]) == Routes(c, fs, fh, batch)
  {
    assert [batch][..0] == [];
    assert Where(c, [batch][..0]) == NotOpen && StreamRoutes(c, [batch][..0]) == [];
  }
}
