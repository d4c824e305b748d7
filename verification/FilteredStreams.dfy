/** Filtered queries: one engine moves on matching events only, shards on every batch's whole
    time range. When do they report the same of a stream in order? */
module FilteredStreams {
  import opened Arithmetic
  import opened QuerySpec
  import opened Reports
  import opened ShardAcceptance
  import opened ShardAgreement
  import opened ShardCalls
  import opened ShardCorollaries
  import opened ShardTheorem
  import opened Sharding
  import opened WindowMeaning
  import opened WindowRing
  import opened WindowRuns

  /** The stream without its batches. */
  function Flat(batches: seq<Batch>): Batch {
    if batches == [] then [] else Flat(batches[..|batches| - 1]) + batches[|batches| - 1]
  }

  /** The matching events, each routed where it falls in a stream in order. */
  function Matched(c: Config, a: Batch): seq<Routed>
    requires c.Valid()
  {
    if a == [] then []
    else
      var s := a[|a| - 1];
      Matched(c, a[..|a| - 1])
      + (if c.filter(s.event) then [RoutedAt(c, s)] else [])
  }

  function RoutedAt(c: Config, s: Sent): Routed
    requires c.Valid()
  {
    Routed(s.shard, s.event, StartOf(c, s), StartOf(c, s), StartOf(c, s))
  }

  function FirstBucket(m: seq<Routed>): nat
    requires m != []
  {
    m[0].bucket
  }

  function LastBucket(m: seq<Routed>): nat
    requires m != []
  {
    m[|m| - 1].bucket
  }

  function LastStart(c: Config, a: Batch): nat
    requires c.Valid() && a != []
  {
    StartOf(c, a[|a| - 1])
  }

  ghost predicate InRange(a: Batch, n: nat) {
    forall s :: s in a ==> s.shard < n
  }

  lemma {:induction false} MatchedSnoc(c: Config, a: Batch, s: Sent)
    requires c.Valid()
    ensures Matched(c, a + [s])
         == Matched(c, a)
            + if c.filter(s.event) then [RoutedAt(c, s)] else []
  {
    assert (a + [s])[..|a|] == a;
  }

  lemma {:induction false} MatchedConcat(c: Config, a: Batch, b: Batch)
    requires c.Valid()
    ensures Matched(c, a + b) == Matched(c, a) + Matched(c, b)
  {
    hide StartOf;
    if b == [] {
      assert a + b == a;
    } else {
      assert (a + b)[..|a + b| - 1] == a + b[..|b| - 1];
      MatchedConcat(c, a, b[..|b| - 1]);
    }
  }

  ghost predicate Straight(c: Config, r: Routed)
    requires c.Valid()
  {
    r.single == r.bucket == r.own && Aligned(c, r.bucket)
  }

  lemma {:induction false} MatchedStraight(c: Config, a: Batch, n: nat)
    requires c.Valid()
    ensures forall r :: r in Matched(c, a) ==> Straight(c, r)
    ensures InRange(a, n) ==> forall r :: r in Matched(c, a) ==> r.shard < n
  {
    if a != [] {
      MatchedStraight(c, a[..|a| - 1], n);
    }
  }

  /** In order, the matching events lie between the first and the last event. */
  lemma {:induction false} MatchedOrder(c: Config, a: Batch)
    requires c.Valid() && BatchInOrder(c, a)
    ensures var m := Matched(c, a);
      && (forall r :: r in m ==> StartOf(c, a[0]) <= r.bucket <= LastStart(c, a))
      && (forall r :: r in m ==> FirstBucket(m) <= r.bucket <= LastBucket(m))
  {
    hide StartOf;
    if a != [] {
      var init, s := a[..|a| - 1], a[|a| - 1];
      MatchedOrder(c, init);
      var before, m := Matched(c, init), Matched(c, a);
      if before != [] {
        assert before[|before| - 1] in before && before[0] in before;
        assert StartOf(c, init[|init| - 1]) <= StartOf(c, s);
      }
      forall r | r in m
        ensures StartOf(c, a[0]) <= r.bucket <= LastStart(c, a) && FirstBucket(m) <= r.bucket <= LastBucket(m)
      {
        if r in before {
          assert m[0] == before[0];
        }
      }
    }
  }

  /** In order, both engines log an event alike. */
  lemma {:induction false} SameLogs(c: Config, m: seq<Routed>)
    requires c.Valid() && forall r :: r in m ==> Straight(c, r)
    ensures OwnLog(m) == SingleLog(m)
  {
    if m != [] {
      SameLogs(c, m[..|m| - 1]);
      assert Straight(c, m[|m| - 1]);
    }
  }

  lemma {:induction false} OrderedLatest(c: Config, batch: Batch)
    requires c.Valid() && batch != [] && BatchInOrder(c, batch)
    ensures BucketStart(c, Latest(batch)) == LastStart(c, batch)
  {
    hide BucketStart;
    OrderedStand(c, 0, batch);
    StandAtWatermark(c, 0, batch);
  }

  lemma {:induction false} InOrderParts(c: Config, a: Batch, b: Batch)
    requires c.Valid() && BatchInOrder(c, a + b)
    ensures BatchInOrder(c, a) && BatchInOrder(c, b)
    ensures forall s :: s in b && a != [] ==> LastStart(c, a) <= StartOf(c, s)
  {
    hide StartOf;
    var all := a + b;
    forall i, l | 0 <= i < l < |b|
      ensures StartOf(c, b[i]) <= StartOf(c, b[l])
    {
      assert all[|a| + i] == b[i] && all[|a| + l] == b[l];
    }
    forall i, l | 0 <= i < l < |a|
      ensures StartOf(c, a[i]) <= StartOf(c, a[l])
    {
      assert all[i] == a[i] && all[l] == a[l];
    }
    forall s | s in b && a != []
      ensures LastStart(c, a) <= StartOf(c, s)
    {
      var i :| 0 <= i < |b| && b[i] == s;
      assert all[|a| - 1] == a[|a| - 1] && all[|a| + i] == s;
    }
  }

  // --- each engine on one batch ---

  ghost predicate NotBefore(c: Config, batch: Batch, back: nat)
    requires c.Valid()
  {
    forall s :: s in batch ==> back <= StartOf(c, s)
  }

  lemma {:induction false} SingleMatch(c: Config, first: nat, before: seq<Routed>, q: Query, base: seq<Window>, s: Sent)
    requires c.Valid() && Accounts(c, first, SingleLog(before), q, base) && c.filter(s.event)
    requires Back(q.ring) <= StartOf(c, s)
    ensures var r := Process(c, q, s.event);
      Accounts(c, first, SingleLog(before + [RoutedAt(c, s)]), r, base) && r.ring != [] && Back(r.ring) == StartOf(c, s)
  {
    hide Process, Accounts, BucketStart;
    ProcessAccounts(c, first, SingleLog(before), q, base, s.event);
    assert (before + [RoutedAt(c, s)])[..|before|] == before;
  }

  function LastOr(more: seq<Routed>, entry: nat): nat {
    if more == [] then entry else LastBucket(more)
  }

  lemma {:induction false} SingleNext(c: Config, first: nat, m: seq<Routed>, more: seq<Routed>, q: Query, base: seq<Window>,
                                      s: Sent, entry: nat)
    requires c.Valid() && Accounts(c, first, SingleLog(m + more), q, base) && q.ring != []
    requires Back(q.ring) == LastOr(more, entry) && Back(q.ring) <= StartOf(c, s)
    ensures var r, all := Process(c, q, s.event), more + if c.filter(s.event) then [RoutedAt(c, s)] else [];
      && Accounts(c, first, SingleLog(m + all), r, base) && r.ring != [] && Back(r.ring) == LastOr(all, entry)
  {
    hide Process, Accounts, StartOf, SingleLog;
    if c.filter(s.event) {
      SingleMatch(c, first, m + more, q, base, s);
      assert m + (more + [RoutedAt(c, s)]) == m + more + [RoutedAt(c, s)];
    } else {
      Unmatched(c, q, s.event);
      assert more + [] == more;
    }
  }

  /** The single engine stands at the last matching event. */
  lemma {:induction false} SingleMatches(c: Config, first: nat, m: seq<Routed>, q: Query, base: seq<Window>, batch: Batch)
    requires c.Valid() && Accounts(c, first, SingleLog(m), q, base)
    requires BatchInOrder(c, batch) && NotBefore(c, batch, Back(q.ring))
    ensures var r, more := FeedSingle(c, q, batch), Matched(c, batch);
      && Accounts(c, first, SingleLog(m + more), r, base) && r.ring != []
      && Back(r.ring) == LastOr(more, Back(q.ring))
  {
    hide Process, Accounts, StartOf, SingleLog, BatchInOrder, Matched, FeedSingle, FeedOwn, RoutedAt, LastOr;
    AccountsHasRing(c, first, SingleLog(m), q, base);
    if batch == [] {
      FeedNothing(c, q, m, Back(q.ring));
    } else {
      var init, s := batch[..|batch| - 1], batch[|batch| - 1];
      assert batch == init + [s] && s in batch;
      InOrderParts(c, init, [s]);
      assert s in [s];
      SingleMatches(c, first, m, q, base, init);
      MatchedSnoc(c, init, s);
      FeedOwnSnoc(c, q, init, s, 0);
      var mid := FeedSingle(c, q, init);
      BackReached(c, init, s, Back(q.ring), Back(mid.ring));
      SingleNext(c, first, m, Matched(c, init), mid, base, s, Back(q.ring));
    }
  }

  lemma {:induction false} RoutedBucket(c: Config, s: Sent)
    requires c.Valid()
    ensures RoutedAt(c, s).bucket == StartOf(c, s) && RoutedAt(c, s).shard == s.shard
  {
  }

  lemma {:induction false} BackReached(c: Config, init: Batch, s: Sent, entry: nat, back: nat)
    requires c.Valid() && BatchInOrder(c, init) && entry <= StartOf(c, s)
    requires init != [] ==> LastStart(c, init) <= StartOf(c, s)
    requires back == LastOr(Matched(c, init), entry)
    ensures back <= StartOf(c, s)
  {
    hide StartOf;
    MatchedOrder(c, init);
    if Matched(c, init) != [] {
      assert Matched(c, init)[|Matched(c, init)| - 1] in Matched(c, init);
    }
  }

  lemma {:induction false} Unmatched(c: Config, q: Query, e: FlowEvent)
    requires c.Valid() && !c.filter(e)
    ensures Process(c, q, e) == q
  {
  }

  lemma {:induction false} OwnMatch(c: Config, first: nat, before: seq<Routed>, q: Query, base: seq<Window>, s: Sent, i: nat)
    requires c.Valid() && Accounts(c, first, ShardLog(before, i), q, base) && c.filter(s.event)
    requires Back(q.ring) <= StartOf(c, s)
    ensures var r := if s.shard == i then Process(c, q, s.event) else q;
      && Accounts(c, first, ShardLog(before + [RoutedAt(c, s)], i), r, base)
      && r.ring != [] && Back(q.ring) <= Back(r.ring) <= StartOf(c, s)
  {
    hide Process, Accounts, BucketStart, ShardLog;
    AccountsHasRing(c, first, ShardLog(before, i), q, base);
    ShardLogSnoc(before, RoutedAt(c, s), i);
    if s.shard == i {
      ProcessAccounts(c, first, ShardLog(before, i), q, base, s.event);
    }
  }

  lemma {:induction false} FeedOwnSnoc(c: Config, q: Query, init: Batch, s: Sent, i: nat)
    requires c.Valid()
    ensures FeedOwn(c, q, init + [s], i)
         == if s.shard == i then Process(c, FeedOwn(c, q, init, i), s.event) else FeedOwn(c, q, init, i)
    ensures FeedSingle(c, q, init + [s]) == Process(c, FeedSingle(c, q, init), s.event)
  {
    hide Process;
    assert (init + [s])[..|init|] == init;
  }

  lemma {:induction false} FeedNothing(c: Config, q: Query, m: seq<Routed>, i: nat)
    requires c.Valid()
    ensures FeedOwn(c, q, [], i) == q == FeedSingle(c, q, []) && m + Matched(c, []) == m && LastOr(Matched(c, []), i) == i
  {
  }

  /** A shard that was seeded no later than any event of the batch logs its own matching ones. */
  lemma {:induction false} OwnMatches(c: Config, first: nat, m: seq<Routed>, q: Query, base: seq<Window>, batch: Batch, i: nat)
    requires c.Valid() && Accounts(c, first, ShardLog(m, i), q, base)
    requires BatchInOrder(c, batch) && NotBefore(c, batch, Back(q.ring))
    ensures var r := FeedOwn(c, q, batch, i);
      && Accounts(c, first, ShardLog(m + Matched(c, batch), i), r, base) && r.ring != []
      && Back(q.ring) <= Back(r.ring)
      && (batch == [] ==> r == q) && (batch != [] ==> Back(r.ring) <= LastStart(c, batch))
  {
    hide Process, Accounts, StartOf, ShardLog, BatchInOrder, Matched, FeedOwn, FeedSingle, RoutedAt;
    AccountsHasRing(c, first, ShardLog(m, i), q, base);
    if batch == [] {
      FeedNothing(c, q, m, i);
    } else {
      var init, s := batch[..|batch| - 1], batch[|batch| - 1];
      assert batch == init + [s] && s in batch;
      InOrderParts(c, init, [s]);
      assert s in [s];
      OwnMatches(c, first, m, q, base, init, i);
      MatchedSnoc(c, init, s);
      FeedOwnSnoc(c, q, init, s, i);
      var before, mid := m + Matched(c, init), FeedOwn(c, q, init, i);
      if c.filter(s.event) {
        OwnMatch(c, first, before, mid, base, s, i);
        assert m + Matched(c, batch) == before + [RoutedAt(c, s)];
      } else {
        Unmatched(c, mid, s.event);
        assert m + Matched(c, batch) == before;
      }
    }
  }

  /** Opening is an advance from an empty ring. */
  lemma {:induction false} OpensAt(c: Config, q: Query, start: nat)
    requires c.Valid() && Aligned(c, start) && q.ring == [] && q.emitted == []
    ensures var o := q.(ring := [Bucket(start, multiset{})]);
      && Advance(c, q, start) == o == Advance(c, o, start)
      && Accounts(c, start, [], o, []) && Back(o.ring) == start
      && WindowsUpTo(c, start, [], start) == []
  {
    OpenedFaithful(c, start);
    assert SlidesTo(c, [Bucket(start, multiset{})], start) == 0;
    assert [] + [] == q.emitted;
  }

  lemma {:induction false} SingleOpens(c: Config, q: Query, batch: Batch)
    requires c.Valid() && q.ring == [] && q.emitted == [] && BatchInOrder(c, batch)
    ensures var r, m := FeedSingle(c, q, batch), Matched(c, batch);
      && (m == [] ==> r == q)
      && (m != [] ==> Accounts(c, FirstBucket(m), SingleLog(m), r, []) && r.ring != [] && Back(r.ring) == LastBucket(m))
  {
    hide Accounts, StartOf, Process, SingleLog, BatchInOrder, Matched, FeedSingle, FeedOwn, RoutedAt;
    if batch == [] {
      NoMatches(c);
      FeedNothing(c, q, [], 0);
    } else {
      var init, s := batch[..|batch| - 1], batch[|batch| - 1];
      assert batch == init + [s];
      InOrderParts(c, init, [s]);
      SingleOpens(c, q, init);
      MatchedSnoc(c, init, s);
      FeedOwnSnoc(c, q, init, s, 0);
      assert s in [s];
      RoutedBucket(c, s);
      var m0, mid := Matched(c, init), FeedSingle(c, q, init);
      if !c.filter(s.event) {
        Unmatched(c, mid, s.event);
        assert m0 + [] == m0;
      } else if m0 == [] {
        OpeningEvent(c, q, s);
        assert m0 + [RoutedAt(c, s)] == [RoutedAt(c, s)];
      } else {
        BackReached(c, init, s, 0, Back(mid.ring));
        SingleMatch(c, FirstBucket(m0), m0, mid, [], s);
        assert (m0 + [RoutedAt(c, s)])[0] == m0[0];
      }
    }
  }

  lemma {:induction false} OpeningEvent(c: Config, q: Query, s: Sent)
    requires c.Valid() && q.ring == [] && q.emitted == [] && c.filter(s.event)
    ensures var r := Process(c, q, s.event);
      && Accounts(c, StartOf(c, s), SingleLog([RoutedAt(c, s)]), r, []) && r.ring != [] && Back(r.ring) == StartOf(c, s)
  {
    hide Accounts, BucketStart, Advance;
    var start := BucketStart(c, s.event.ts);
    OpensAt(c, q, start);
    var o := q.(ring := [Bucket(start, multiset{})]);
    assert SingleLog([]) == [];
    SingleMatch(c, start, [], o, [], s);
    assert [] + [RoutedAt(c, s)] == [RoutedAt(c, s)];
    assert Process(c, q, s.event) == Process(c, o, s.event);
  }

  // --- what each engine reports of a batch ---

  /** The engine opened at `first`, was drained at `entry`, and reports what it closed since. */
  ghost predicate Told(c: Config, first: nat, log: seq<Arrival>, q: Query, entry: nat, back: nat)
    requires c.Valid()
  {
    StandsAt(c, first, log, q, back) && ReportsLog(c, first, entry, back, q.emitted, log)
  }

  lemma {:induction false} ToldFrom(c: Config, first: nat, log: seq<Arrival>, more: seq<Arrival>, q: Query, entry: nat)
    requires c.Valid() && Aligned(c, first) && Aligned(c, entry) && first <= entry
    requires forall a :: a in more ==> entry <= a.back
    requires Accounts(c, first, log + more, q, WindowsUpTo(c, first, log, entry)) && q.ring != [] && entry <= Back(q.ring)
    ensures Told(c, first, log + more, q, entry, Back(q.ring))
  {
    hide EventsAt, OnGrid, Covered, Aligned, WindowsUpTo;
    forall key: Bounds
      ensures EventsAt(q.emitted, key)
           == if OnGrid(c, first, entry, Back(q.ring), key) then Covered(log + more, key.0, key.1) else multiset{}
    {
      EngineReport(c, first, log, more, q, entry, key);
    }
    AccountsFaithful(c, first, log + more, q, WindowsUpTo(c, first, log, entry));
  }

  lemma {:induction false} AccountsFaithful(c: Config, first: nat, log: seq<Arrival>, q: Query, base: seq<Window>)
    requires c.Valid() && Accounts(c, first, log, q, base)
    ensures q.ring != [] && Faithful(c, q.ring, first, log)
  {
  }

  /** The matching events of a batch in order come no earlier than its first event. */
  lemma {:induction false} MatchedFrom(c: Config, batch: Batch, i: nat, entry: nat)
    requires c.Valid() && BatchInOrder(c, batch) && batch != [] && entry <= StartOf(c, batch[0])
    ensures forall a :: a in SingleLog(Matched(c, batch)) || a in ShardLog(Matched(c, batch), i) ==> entry <= a.back
  {
    hide StartOf;
    MatchedOrder(c, batch);
    MatchedStraight(c, batch, 0);
    var m := Matched(c, batch);
    forall r | r in m
      ensures entry <= r.single && entry <= r.own
    {
      assert Straight(c, r);
    }
    LogBacks(m, i, entry, entry);
  }

  lemma {:induction false} OrderedFirst(c: Config, batch: Batch)
    requires c.Valid() && BatchInOrder(c, batch) && batch != []
    ensures NotBefore(c, batch, StartOf(c, batch[0])) && StartOf(c, batch[0]) <= LastStart(c, batch)
    ensures Aligned(c, StartOf(c, batch[0])) && Aligned(c, LastStart(c, batch))
  {
    hide BucketStart;
    forall s | s in batch
      ensures StartOf(c, batch[0]) <= StartOf(c, s)
    {
      var i :| 0 <= i < |batch| && batch[i] == s;
    }
    assert batch[|batch| - 1] in batch;
  }

  lemma {:induction false} SeededShard(c: Config, first: nat, m: seq<Routed>, seeded: Query, entry: nat, batch: Batch, i: nat)
    requires c.Valid() && BatchInOrder(c, batch) && batch != []
    requires Aligned(c, first) && Aligned(c, entry) && first <= entry <= StartOf(c, batch[0])
    requires Accounts(c, first, ShardLog(m, i), seeded, WindowsUpTo(c, first, ShardLog(m, i), entry))
    requires Back(seeded.ring) == StartOf(c, batch[0])
    ensures Told(c, first, ShardLog(m + Matched(c, batch), i),
                 Advance(c, FeedOwn(c, seeded, batch, i), BucketStart(c, Latest(batch))), entry, LastStart(c, batch))
  {
    hide Accounts, StartOf, BucketStart, ShardLog, Advance, FeedOwn, WindowsUpTo, BatchInOrder, Told, Aligned;
    var base := WindowsUpTo(c, first, ShardLog(m, i), entry);
    var fed := FeedOwn(c, seeded, batch, i);
    OrderedFirst(c, batch);
    OwnMatches(c, first, m, seeded, base, batch, i);
    OrderedLatest(c, batch);
    AdvanceAccounts(c, first, ShardLog(m + Matched(c, batch), i), fed, base, BucketStart(c, Latest(batch)));
    AccountsFaithful(c, first, ShardLog(m + Matched(c, batch), i), Advance(c, fed, BucketStart(c, Latest(batch))), base);
    LogsConcat(m, Matched(c, batch), i);
    MatchedFrom(c, batch, i, entry);
    ToldFrom(c, first, ShardLog(m, i), ShardLog(Matched(c, batch), i), Advance(c, fed, BucketStart(c, Latest(batch))), entry);
  }

  /** Where an engine that was last at the end of `a` is drained before `batch`, or opens. */
  function EntryOf(c: Config, a: Batch, batch: Batch): nat
    requires c.Valid() && batch != []
  {
    if a == [] then StartOf(c, batch[0]) else LastStart(c, a)
  }

  ghost predicate ShardStands(c: Config, a: Batch, q: Query, i: nat)
    requires c.Valid()
  {
    if a == [] then q.ring == []
    else StandsAt(c, StartOf(c, a[0]), ShardLog(Matched(c, a), i), q, LastStart(c, a))
  }

  lemma {:induction false} ShardStep(c: Config, a: Batch, batch: Batch, q: Query, i: nat)
    requires c.Valid() && BatchInOrder(c, a + batch) && batch != [] && ShardStands(c, a, q, i)
    ensures Told(c, StartOf(c, (a + batch)[0]), ShardLog(Matched(c, a + batch), i), FeedShard(c, Drain(q), batch, i),
                 EntryOf(c, a, batch), LastStart(c, a + batch))
  {
    hide Accounts, StartOf, BucketStart, ShardLog, Advance, FeedOwn, BatchInOrder, Told, Aligned, Faithful, WindowsUpTo;
    InOrderParts(c, a, batch);
    OrderedFirst(c, batch);
    OrderedEarliest(c, batch);
    MatchedConcat(c, a, batch);
    assert batch[0] in batch;
    var start := StartOf(c, batch[0]);
    var seeded := Advance(c, Drain(q), start);
    if a == [] {
      OpensAt(c, Drain(q), start);
      NoShardLog(i);
      assert a + batch == batch;
      SeededShard(c, start, [], seeded, start, batch, i);
      assert [] + Matched(c, batch) == Matched(c, batch);
    } else {
      var first, m, entry := StartOf(c, a[0]), Matched(c, a), LastStart(c, a);
      OrderedFirst(c, a);
      DrainedAccounts(c, first, ShardLog(m, i), q, entry);
      AdvanceAccounts(c, first, ShardLog(m, i), Drain(q), WindowsUpTo(c, first, ShardLog(m, i), entry), start);
      SeededShard(c, first, m, seeded, entry, batch, i);
    }
  }

  lemma {:induction false} NoShardLog(i: nat)
    ensures ShardLog([], i) == [] && SingleLog([]) == []
  {
  }

  lemma {:induction false} DrainedAccounts(c: Config, first: nat, log: seq<Arrival>, q: Query, back: nat)
    requires c.Valid() && StandsAt(c, first, log, q, back)
    ensures Accounts(c, first, log, Drain(q), WindowsUpTo(c, first, log, back)) && Back(Drain(q).ring) == back
  {
    hide Faithful, NonEmpty;
    NothingEmitted(WindowsUpTo(c, first, log, back));
  }

  ghost predicate SingleStands(c: Config, m: seq<Routed>, q: Query)
    requires c.Valid()
  {
    if m == [] then q.ring == [] else StandsAt(c, FirstBucket(m), SingleLog(m), q, LastBucket(m))
  }

  lemma {:induction false} SingleStep(c: Config, a: Batch, batch: Batch, q: Query)
    requires c.Valid() && BatchInOrder(c, a + batch) && batch != [] && SingleStands(c, Matched(c, a), q)
    ensures var r, m0, m := FeedSingle(c, Drain(q), batch), Matched(c, a), Matched(c, a + batch);
      if m == [] then r.ring == [] && r.emitted == []
      else Told(c, FirstBucket(m), SingleLog(m), r, if m0 == [] then FirstBucket(m) else LastBucket(m0), LastBucket(m))
  {
    hide StartOf, SingleLog, FeedSingle, BatchInOrder, Told, Faithful, Matched, StandsAt;
    InOrderParts(c, a, batch);
    MatchedConcat(c, a, batch);
    if Matched(c, a) == [] {
      assert Matched(c, a) + Matched(c, batch) == Matched(c, batch);
      SingleFirst(c, batch, q);
    } else {
      SingleLater(c, a, batch, q);
    }
  }

  lemma {:induction false} SingleFirst(c: Config, batch: Batch, q: Query)
    requires c.Valid() && BatchInOrder(c, batch) && batch != [] && q.ring == []
    ensures var r, m := FeedSingle(c, Drain(q), batch), Matched(c, batch);
      if m == [] then r.ring == [] && r.emitted == []
      else Told(c, FirstBucket(m), SingleLog(m), r, FirstBucket(m), LastBucket(m))
  {
    hide Accounts, StartOf, SingleLog, FeedSingle, BatchInOrder, Told, Faithful, WindowsUpTo, Matched;
    var m := Matched(c, batch);
    SingleOpens(c, Drain(q), batch);
    if m != [] {
      MatchedStraight(c, batch, 0);
      BucketsAligned(c, m);
      MatchedOrder(c, batch);
      var first := FirstBucket(m);
      assert m[|m| - 1] in m;
      NoWindows(c, first);
      assert [] + SingleLog(m) == SingleLog(m);
      LogFrom(c, batch, first);
      ToldFrom(c, first, [], SingleLog(m), FeedSingle(c, Drain(q), batch), first);
    }
  }

  lemma {:induction false} SingleLater(c: Config, a: Batch, batch: Batch, q: Query)
    requires c.Valid() && BatchInOrder(c, a) && BatchInOrder(c, batch) && batch != [] && Matched(c, a) != []
    requires StandsAt(c, FirstBucket(Matched(c, a)), SingleLog(Matched(c, a)), q, LastBucket(Matched(c, a)))
    requires forall s :: s in batch && a != [] ==> LastStart(c, a) <= StartOf(c, s)
    ensures var r, m0, m := FeedSingle(c, Drain(q), batch), Matched(c, a), Matched(c, a) + Matched(c, batch);
      Told(c, FirstBucket(m), SingleLog(m), r, LastBucket(m0), LastBucket(m))
  {
    hide Accounts, StartOf, SingleLog, FeedSingle, BatchInOrder, Told, Faithful, WindowsUpTo, Matched, StandsAt;
    var m0, more := Matched(c, a), Matched(c, batch);
    var first, entry := FirstBucket(m0), LastBucket(m0);
    var base := WindowsUpTo(c, first, SingleLog(m0), entry);
    AfterMatches(c, a, batch);
    DrainedAccounts(c, first, SingleLog(m0), q, entry);
    SingleMatches(c, first, m0, Drain(q), base, batch);
    LogsConcat(m0, more, 0);
    LogFrom(c, batch, entry);
    ToldFrom(c, first, SingleLog(m0), SingleLog(more), FeedSingle(c, Drain(q), batch), entry);
    if more == [] {
      assert m0 + more == m0;
    }
  }

  lemma {:induction false} AfterMatches(c: Config, a: Batch, batch: Batch)
    requires c.Valid() && BatchInOrder(c, a) && BatchInOrder(c, batch) && batch != [] && Matched(c, a) != []
    requires forall s :: s in batch && a != [] ==> LastStart(c, a) <= StartOf(c, s)
    ensures var m0, more := Matched(c, a), Matched(c, batch);
      && Aligned(c, FirstBucket(m0)) && Aligned(c, LastBucket(m0)) && FirstBucket(m0) <= LastBucket(m0)
      && NotBefore(c, batch, LastBucket(m0)) && (forall r :: r in more ==> LastBucket(m0) <= r.bucket)
      && (more != [] ==> LastBucket(m0) <= LastBucket(more))
  {
    hide StartOf, BatchInOrder, Matched;
    var m0, more := Matched(c, a), Matched(c, batch);
    MatchedStraight(c, a, 0);
    BucketsAligned(c, m0);
    MatchedOrder(c, a);
    MatchedOrder(c, batch);
    if a == [] {
      NoMatches(c);
    }
    assert m0[0] in m0 && m0[|m0| - 1] in m0 && batch[0] in batch;
    if more != [] {
      assert more[|more| - 1] in more;
    }
  }

  lemma {:induction false} NoWindows(c: Config, first: nat)
    requires c.Valid()
    ensures WindowsUpTo(c, first, [], first) == []
  {
  }

  lemma {:induction false} BucketsAligned(c: Config, m: seq<Routed>)
    requires c.Valid()
    ensures (forall r :: r in m ==> Straight(c, r)) && m != [] ==>
              Aligned(c, FirstBucket(m)) && Aligned(c, LastBucket(m))
  {
    if m != [] {
      assert m[0] in m && m[|m| - 1] in m;
    }
  }

  lemma {:induction false} LogFrom(c: Config, batch: Batch, entry: nat)
    requires c.Valid() && BatchInOrder(c, batch)
    requires forall r :: r in Matched(c, batch) ==> entry <= r.bucket
    ensures forall a :: a in SingleLog(Matched(c, batch)) ==> entry <= a.back
  {
    hide StartOf;
    MatchedStraight(c, batch, 0);
    var m := Matched(c, batch);
    forall r | r in m
      ensures entry <= r.single && 0 <= r.own
    {
      assert Straight(c, r);
    }
    LogBacks(m, 0, entry, 0);
  }

  // --- whole streams ---

  ghost predicate FilteredHolds(c: Config, n: nat, batches: seq<Batch>)
    requires c.Valid()
  {
    var k, a := Feed(c, n, batches), Flat(batches);
    && |k.shards| == n && SingleStands(c, Matched(c, a), k.single)
    && forall i :: 0 <= i < n ==> ShardStands(c, a, k.shards[i], i)
  }

  /** What both sides report of one more batch. */
  ghost predicate FilteredReports(c: Config, a: Batch, batch: Batch, r: Cluster)
    requires c.Valid() && batch != []
  {
    var m0, m := Matched(c, a), Matched(c, a + batch);
    && ReportsLog(c, StartOf(c, (a + batch)[0]), EntryOf(c, a, batch), LastStart(c, a + batch), AllEmitted(r.shards), OwnLog(m))
    && (m == [] ==> r.single.emitted == [])
    && (m != [] ==>
          ReportsLog(c, FirstBucket(m), if m0 == [] then FirstBucket(m) else LastBucket(m0), LastBucket(m), r.single.emitted,
                     SingleLog(m)))
  }

  lemma {:induction false} FlatSnoc(before: seq<Batch>, batch: Batch)
    ensures Flat(before + [batch]) == Flat(before) + batch
  {
    assert (before + [batch])[..|before|] == before;
  }

  lemma {:induction false} FilteredStep(c: Config, n: nat, before: seq<Batch>, batch: Batch)
    requires c.Valid() && FilteredHolds(c, n, before) && batch != []
    requires BatchInOrder(c, Flat(before) + batch) && InRange(Flat(before) + batch, n)
    ensures FilteredHolds(c, n, before + [batch])
    ensures FilteredReports(c, Flat(before), batch, Feed(c, n, before + [batch]))
  {
    hide StartOf, Feed, FeedSingle, FeedShard, BatchInOrder, ReportsLog, StandsAt, ShardLog, AllEmitted, OwnLog, SingleLog, InRange;
    var a, k, r := Flat(before), Feed(c, n, before), Feed(c, n, before + [batch]);
    var m := Matched(c, a + batch);
    FlatSnoc(before, batch);
    FeedSnoc(c, n, before, batch);
    SingleStep(c, a, batch, k.single);
    forall i | 0 <= i < n
      ensures Told(c, StartOf(c, (a + batch)[0]), ShardLog(m, i), r.shards[i], EntryOf(c, a, batch), LastStart(c, a + batch))
    {
      ShardStep(c, a, batch, k.shards[i], i);
    }
    MatchedStraight(c, a + batch, n);
    ShardsTell(c, StartOf(c, (a + batch)[0]), m, r.shards, EntryOf(c, a, batch), LastStart(c, a + batch));
  }

  /** What the shards report together, from what each one does. */
  lemma {:induction false} ShardsTell(c: Config, first: nat, m: seq<Routed>, shards: seq<Query>, entry: nat, back: nat)
    requires c.Valid() && forall r :: r in m ==> r.shard < |shards|
    requires forall i :: 0 <= i < |shards| ==> ReportsLog(c, first, entry, back, shards[i].emitted, ShardLog(m, i))
    ensures ReportsLog(c, first, entry, back, AllEmitted(shards), OwnLog(m))
  {
    hide EventsAt, OnGrid, Covered, OwnLog, ShardLog, AllEmitted;
    forall key: Bounds
      ensures EventsAt(AllEmitted(shards), key)
           == if OnGrid(c, first, entry, back, key) then Covered(OwnLog(m), key.0, key.1) else multiset{}
    {
      forall i | 0 <= i < |shards|
        ensures EventsAt(shards[i].emitted, key)
             == if OnGrid(c, first, entry, back, key) then Covered(ShardLog(m, i), key.0, key.1) else multiset{}
      {
        assert ReportsLog(c, first, entry, back, shards[i].emitted, ShardLog(m, i));
      }
      ShardsTogether(shards, m, key, OnGrid(c, first, entry, back, key));
      AllShards(m, key.0, key.1, |shards|);
    }
  }

  /** A batch without events only drains. */
  lemma {:induction false} EmptyStep(c: Config, n: nat, before: seq<Batch>)
    requires c.Valid() && FilteredHolds(c, n, before)
    ensures FilteredHolds(c, n, before + [[]]) && ReportsAgree(Feed(c, n, before + [[]]))
    ensures Flat(before + [[]]) == Flat(before)
  {
    hide StartOf, Feed, Faithful, SameReport, ShardLog, SingleLog, Matched;
    FlatSnoc(before, []);
    assert Flat(before) + [] == Flat(before);
    FeedSnoc(c, n, before, []);
    var r := Feed(c, n, before + [[]]);
    NothingReported(r);
  }

  lemma {:induction false} NothingReported(k: Cluster)
    requires k.single.emitted == [] && forall i :: 0 <= i < |k.shards| ==> k.shards[i].emitted == []
    ensures ReportsAgree(k)
  {
    NothingEmittedTogether(k.shards);
  }

  lemma {:induction false} FilteredInvariant(c: Config, n: nat, batches: seq<Batch>)
    requires c.Valid() && BatchInOrder(c, Flat(batches)) && InRange(Flat(batches), n)
    ensures FilteredHolds(c, n, batches)
  {
    hide FilteredHolds, StartOf;
    if batches == [] {
      FilteredStarts(c, n);
    } else {
      var before, batch := batches[..|batches| - 1], batches[|batches| - 1];
      assert batches == before + [batch];
      FlatSnoc(before, batch);
      InOrderParts(c, Flat(before), batch);
      FilteredInvariant(c, n, before);
      if batch == [] {
        EmptyStep(c, n, before);
      } else {
        FilteredStep(c, n, before, batch);
      }
    }
  }

  lemma {:induction false} FilteredStarts(c: Config, n: nat)
    requires c.Valid()
    ensures FilteredHolds(c, n, [])
  {
  }

  // --- when the reports of a drain agree ---

  lemma {:induction false} CoversNothing(m: seq<Routed>, key: Bounds)
    requires m == []
    ensures Covered(SingleLog(m), key.0, key.1) == multiset{}
  {
  }

  lemma {:induction false} UnmatchedAgrees(c: Config, fh: nat, entry: nat, bh: nat, single: seq<Window>, shards: seq<Window>)
    requires c.Valid() && single == [] && ReportsLog(c, fh, entry, bh, shards, SingleLog([]))
    ensures SameReport(single, shards)
  {
    hide Covered, OnGrid, SingleLog;
    forall key: Bounds
      ensures EventsAt(single, key) == EventsAt(shards, key)
    {
      CoversNothing([], key);
    }
  }

  /** Standing together, on one grid, both sides report the same. */
  lemma {:induction false} TogetherAgrees(c: Config, m: seq<Routed>, fs: nat, fh: nat, es: nat, eh: nat, back: nat,
                                          single: seq<Window>, shards: seq<Window>)
    requires c.Valid() && Aligned(c, fs) && fh <= fs <= es && eh <= es && SameOpening(c, fs, fh)
    requires es == eh || forall r :: r in m ==> es <= r.single
    requires ReportsLog(c, fs, es, back, single, SingleLog(m)) && ReportsLog(c, fh, eh, back, shards, SingleLog(m))
    ensures SameReport(single, shards)
  {
    hide Covered, EventsAt, SingleLog, WindowStart, SameOpening;
    forall key: Bounds
      ensures EventsAt(single, key) == EventsAt(shards, key)
    {
      if es < key.1 && Aligned(c, key.1) {
        GridStarts(c, fs, fh, key.1);
      } else if key.1 <= es && es != eh {
        NothingBefore(m, key);
      }
    }
  }

  /** With the shards ahead of the last matching event, they report a window with it that
      the single engine has not closed. */
  lemma {:induction false} AheadDiffers(c: Config, m: seq<Routed>, fs: nat, fh: nat, es: nat, eh: nat, bs: nat, bh: nat,
                                        single: seq<Window>, shards: seq<Window>)
    requires c.Valid() && m != [] && Straight(c, m[|m| - 1]) && LastBucket(m) == bs
    requires fh <= bs < bh && eh <= bs && Aligned(c, bh)
    requires ReportsLog(c, fs, es, bs, single, SingleLog(m)) && ReportsLog(c, fh, eh, bh, shards, SingleLog(m))
    ensures !SameReport(single, shards)
  {
    hide Covered, EventsAt, SingleLog;
    var end := bs + c.slide;
    AlignedGap(bs, bh, c.slide);
    AlignedStep(bs, c.slide);
    WindowHoldsBack(c, fh, bs);
    var key: Bounds := (WindowStart(c, fh, end), end);
    CoveredHas(m, m[|m| - 1], key.0, key.1);
    assert m[|m| - 1].event in EventsAt(shards, key);
    assert EventsAt(single, key) == multiset{};
  }

  lemma {:induction false} WindowHoldsBack(c: Config, first: nat, back: nat)
    requires c.Valid() && first <= back
    ensures WindowStart(c, first, back + c.slide) <= back
  {
    MulMonotone(1, c.buckets, c.slide);
  }

  // --- the exact condition ---

  /** The newest event lies in the bucket of the newest matching one, if any matched. */
  ghost predicate StandTogether(c: Config, a: Batch)
    requires c.Valid()
  {
    Matched(c, a) != [] ==> LastBucket(Matched(c, a)) == LastStart(c, a)
  }

  /** At every drain so far. */
  ghost predicate AlwaysTogether(c: Config, batches: seq<Batch>)
    requires c.Valid()
  {
    batches == [] || (AlwaysTogether(c, batches[..|batches| - 1]) && StandTogether(c, Flat(batches)))
  }

  /** Some event matched, and both engines opened on one bucket. */
  ghost predicate OpenedTogether(c: Config, a: Batch)
    requires c.Valid()
  {
    Matched(c, a) != [] ==> SameOpening(c, FirstBucket(Matched(c, a)), StartOf(c, a[0]))
  }

  /** How the stands lie when one more batch has been taken in. */
  lemma {:induction false} StandsLie(c: Config, a: Batch, batch: Batch)
    requires c.Valid() && BatchInOrder(c, a + batch) && batch != [] && Matched(c, a + batch) != []
    ensures var m0, m := Matched(c, a), Matched(c, a + batch);
      var fs, fh, bs, bh := FirstBucket(m), StartOf(c, (a + batch)[0]), LastBucket(m), LastStart(c, a + batch);
      && Aligned(c, fs) && Aligned(c, bs) && Aligned(c, bh) && fh <= fs <= bs <= bh
      && (m0 != [] ==> FirstBucket(m0) == fs && fs <= LastBucket(m0) <= bs)
      && (m0 == [] ==> EntryOf(c, a, batch) <= fs)
      && (a != [] ==> a[0] == (a + batch)[0])
      && (forall r :: r in m ==> Straight(c, r) && fs <= r.single)
  {
    hide StartOf, BatchInOrder;
    InOrderParts(c, a, batch);
    MatchedConcat(c, a, batch);
    MatchedStraight(c, a + batch, 0);
    MatchedOrder(c, a + batch);
    MatchedOrder(c, a);
    MatchedOrder(c, batch);
    OrderedFirst(c, a + batch);
    var m0, more, m := Matched(c, a), Matched(c, batch), Matched(c, a + batch);
    assert m[0] in m && m[|m| - 1] in m;
    assert Straight(c, m[0]) && Straight(c, m[|m| - 1]);
    forall r | r in m
      ensures Straight(c, r) && FirstBucket(m) <= r.single
    {
    }
    if m0 != [] {
      assert m[0] == m0[0] && m0[|m0| - 1] in m0;
      assert m0[|m0| - 1] in m;
    } else {
      assert m == more;
      assert batch[0] in batch;
    }
  }

  lemma {:induction false} DrainAgrees(c: Config, n: nat, before: seq<Batch>, batch: Batch)
    requires c.Valid() && batch != [] && FilteredReports(c, Flat(before), batch, Feed(c, n, before + [batch]))
    requires BatchInOrder(c, Flat(before) + batch) && StandTogether(c, Flat(before))
    requires StandTogether(c, Flat(before) + batch) && OpenedTogether(c, Flat(before) + batch)
    ensures ReportsAgree(Feed(c, n, before + [batch]))
  {
    hide StartOf, Feed, BatchInOrder, ReportsLog, SameReport, AllEmitted, OwnLog, SingleLog, SameOpening, Matched;
    var a, r := Flat(before), Feed(c, n, before + [batch]);
    var m0, m := Matched(c, a), Matched(c, a + batch);
    MatchedStraight(c, a + batch, 0);
    SameLogs(c, m);
    var fh, eh, bh := StartOf(c, (a + batch)[0]), EntryOf(c, a, batch), LastStart(c, a + batch);
    if m == [] {
      UnmatchedAgrees(c, fh, eh, bh, r.single.emitted, AllEmitted(r.shards));
    } else {
      StandsLie(c, a, batch);
      NoMatches(c);
      TogetherAgrees(c, m, FirstBucket(m), fh, if m0 == [] then FirstBucket(m) else LastBucket(m0), eh, bh,
                     r.single.emitted, AllEmitted(r.shards));
    }
  }

  lemma {:induction false} NoMatches(c: Config)
    requires c.Valid()
    ensures Matched(c, []) == []
  {
  }

  lemma {:induction false} DrainDiffers(c: Config, n: nat, before: seq<Batch>, batch: Batch)
    requires c.Valid() && batch != [] && FilteredReports(c, Flat(before), batch, Feed(c, n, before + [batch]))
    requires BatchInOrder(c, Flat(before) + batch) && StandTogether(c, Flat(before))
    requires var m0, m := Matched(c, Flat(before)), Matched(c, Flat(before) + batch);
      || !StandTogether(c, Flat(before) + batch)
      || (!OpenedTogether(c, Flat(before) + batch) && FirstBucket(m) < LastBucket(m)
          && (m0 == [] || LastBucket(m0) == FirstBucket(m0)))
    ensures !ReportsAgree(Feed(c, n, before + [batch]))
  {
    hide StartOf, Feed, BatchInOrder, ReportsLog, SameReport, AllEmitted, OwnLog, SingleLog, SameOpening, Matched;
    var a, r := Flat(before), Feed(c, n, before + [batch]);
    var m0, m := Matched(c, a), Matched(c, a + batch);
    MatchedStraight(c, a + batch, 0);
    SameLogs(c, m);
    StandsLie(c, a, batch);
    NoMatches(c);
    var fs, fh, bs, bh := FirstBucket(m), StartOf(c, (a + batch)[0]), LastBucket(m), LastStart(c, a + batch);
    var es, eh := if m0 == [] then fs else LastBucket(m0), EntryOf(c, a, batch);
    if bs < bh {
      assert m[|m| - 1] in m;
      AheadDiffers(c, m, fs, fh, es, eh, bs, bh, r.single.emitted, AllEmitted(r.shards));
    } else {
      assert m[0] in m && Straight(c, m[0]);
      OpeningShows(c, fs, fh, m, eh, bs, r.single.emitted, AllEmitted(r.shards));
    }
  }

  // --- the end of the stream ---

  lemma {:induction false} CloseTells(c: Config, n: nat, batches: seq<Batch>)
    requires c.Valid() && FilteredHolds(c, n, batches) && Flat(batches) != []
    requires BatchInOrder(c, Flat(batches)) && InRange(Flat(batches), n)
    ensures var a, r := Flat(batches), Close(c, Feed(c, n, batches));
      var m, bh := Matched(c, a), LastStart(c, a);
      && ReportsLog(c, StartOf(c, a[0]), bh, bh + c.slide, AllEmitted(r.shards), OwnLog(m))
      && (m == [] ==> r.single.emitted == [])
      && (m != [] ==> ReportsLog(c, FirstBucket(m), LastBucket(m), LastBucket(m) + c.slide, r.single.emitted, SingleLog(m)))
  {
    hide StartOf, Feed, BatchInOrder, StandsAt, OwnLog, SingleLog, ShardLog, Matched, AllEmitted, EventsAt, Covered, OnGrid, InRange,
      Straight;
    var a, k := Flat(batches), Feed(c, n, batches);
    var r := Close(c, k);
    var m, fh, bh := Matched(c, a), StartOf(c, a[0]), LastStart(c, a);
    MatchedStraight(c, a, n);
    OrderedFirst(c, a);
    forall i | 0 <= i < n
      ensures ReportsLog(c, fh, bh, bh + c.slide, r.shards[i].emitted, ShardLog(m, i))
    {
      FinishTells(c, fh, ShardLog(m, i), k.shards[i], bh);
    }
    ShardsTell(c, fh, m, r.shards, bh, bh + c.slide);
    if m != [] {
      BucketsAligned(c, m);
      FinishTells(c, FirstBucket(m), SingleLog(m), k.single, LastBucket(m));
    }
  }

  lemma {:induction false} FinishTells(c: Config, first: nat, log: seq<Arrival>, q: Query, back: nat)
    requires c.Valid() && Aligned(c, back) && StandsAt(c, first, log, q, back)
    ensures ReportsLog(c, first, back, back + c.slide, Finish(c, Drain(q)).emitted, log)
  {
    hide EventsAt, Covered, OnGrid, StandsAt, Finish;
    forall key: Bounds
      ensures EventsAt(Finish(c, Drain(q)).emitted, key)
           == if OnGrid(c, first, back, back + c.slide, key) then Covered(log, key.0, key.1) else multiset{}
    {
      TrailingReport(c, first, log, q, back, key);
    }
  }

  lemma {:induction false} OrderedWhole(c: Config, a: Batch)
    requires c.Valid() && BatchInOrder(c, a) && Matched(c, a) != []
    ensures var m := Matched(c, a);
      && StartOf(c, a[0]) <= FirstBucket(m) <= LastBucket(m) && Aligned(c, FirstBucket(m)) && Aligned(c, LastBucket(m))
      && HasOpener(c, FirstBucket(m), m)
  {
    hide StartOf;
    MatchedStraight(c, a, 0);
    MatchedOrder(c, a);
    var m := Matched(c, a);
    BucketsAligned(c, m);
    assert m[0] in m && m[|m| - 1] in m && Straight(c, m[0]);
  }

  lemma {:induction false} EndAgrees(c: Config, n: nat, batches: seq<Batch>)
    requires c.Valid() && FilteredHolds(c, n, batches)
    requires BatchInOrder(c, Flat(batches)) && InRange(Flat(batches), n)
    requires StandTogether(c, Flat(batches)) && OpenedTogether(c, Flat(batches))
    ensures ReportsAgree(Close(c, Feed(c, n, batches)))
  {
    hide StartOf, Feed, BatchInOrder, ReportsLog, SameReport, AllEmitted, OwnLog, SingleLog, SameOpening, Matched, InRange, Close;
    var a, r := Flat(batches), Close(c, Feed(c, n, batches));
    var m := Matched(c, a);
    if a == [] {
      NoMatches(c);
      NothingToClose(c, n, batches);
    } else {
      CloseTells(c, n, batches);
      MatchedStraight(c, a, 0);
      SameLogs(c, m);
      var fh, bh := StartOf(c, a[0]), LastStart(c, a);
      if m == [] {
        UnmatchedAgrees(c, fh, bh, bh + c.slide, r.single.emitted, AllEmitted(r.shards));
      } else {
        OrderedWhole(c, a);
        TogetherAgrees(c, m, FirstBucket(m), fh, bh, bh, bh + c.slide, r.single.emitted, AllEmitted(r.shards));
      }
    }
  }

  lemma {:induction false} NothingToClose(c: Config, n: nat, batches: seq<Batch>)
    requires c.Valid() && FilteredHolds(c, n, batches) && Flat(batches) == []
    ensures ReportsAgree(Close(c, Feed(c, n, batches)))
  {
    hide Feed, ReportsAgree;
    NothingReported(Close(c, Feed(c, n, batches)));
  }

  lemma {:induction false} EndDiffers(c: Config, n: nat, batches: seq<Batch>)
    requires c.Valid() && FilteredHolds(c, n, batches)
    requires BatchInOrder(c, Flat(batches)) && InRange(Flat(batches), n)
    requires StandTogether(c, Flat(batches)) && !OpenedTogether(c, Flat(batches))
    requires var m := Matched(c, Flat(batches));
      m != [] && FirstBucket(m) == LastBucket(m)
    ensures !ReportsAgree(Close(c, Feed(c, n, batches)))
  {
    hide StartOf, Feed, BatchInOrder, ReportsLog, SameReport, AllEmitted, OwnLog, SingleLog, SameOpening, Matched, InRange, Close;
    var a, r := Flat(batches), Close(c, Feed(c, n, batches));
    var m := Matched(c, a);
    if a == [] {
      NoMatches(c);
    }
    CloseTells(c, n, batches);
    MatchedStraight(c, a, 0);
    SameLogs(c, m);
    OrderedWhole(c, a);
    AlignedStep(LastBucket(m), c.slide);
    OpeningShows(c, FirstBucket(m), StartOf(c, a[0]), m, LastStart(c, a), LastBucket(m) + c.slide, r.single.emitted,
                 AllEmitted(r.shards));
  }

  // --- main result ---

  lemma {:induction false} PrefixesAgree(c: Config, n: nat, batches: seq<Batch>)
    requires c.Valid() && BatchInOrder(c, Flat(batches)) && InRange(Flat(batches), n)
    requires OpenedTogether(c, Flat(batches)) && AlwaysTogether(c, batches)
    ensures AllAgree(c, n, batches)
  {
    hide StartOf, Feed, BatchInOrder, ReportsAgree, SameOpening, Matched, InRange, FilteredHolds, FilteredReports, StandTogether,
      OpenedTogether, AllAgree;
    if batches == [] {
      NoDrains(c, n);
    } else {
      var before, batch := batches[..|batches| - 1], batches[|batches| - 1];
      assert batches == before + [batch];
      Prefix(c, n, before, batch);
      PrefixesAgree(c, n, before);
      AllAgreeSnoc(c, n, before, batch);
      if batch == [] {
        EmptyStep(c, n, before);
      } else {
        FilteredStep(c, n, before, batch);
        LastTogether(c, before);
        DrainAgrees(c, n, before, batch);
      }
    }
  }

  lemma {:induction false} NoDrains(c: Config, n: nat)
    requires c.Valid()
    ensures AllAgree(c, n, [])
  {
  }

  /** The first drain at which the shards are ahead tells. */
  lemma {:induction false} PartedTells(c: Config, n: nat, batches: seq<Batch>)
    requires c.Valid() && BatchInOrder(c, Flat(batches)) && InRange(Flat(batches), n)
    requires !AlwaysTogether(c, batches)
    ensures !AllAgree(c, n, batches)
  {
    hide StartOf, Feed, BatchInOrder, ReportsAgree, SameOpening, Matched, InRange, FilteredHolds, FilteredReports, StandTogether,
      OpenedTogether, AllAgree;
    var before, batch := batches[..|batches| - 1], batches[|batches| - 1];
    assert batches == before + [batch];
    Prefix(c, n, before, batch);
    AllAgreeSnoc(c, n, before, batch);
    if !AlwaysTogether(c, before) {
      PartedTells(c, n, before);
    } else {
      LastTogether(c, before);
      assert batch == [] ==> Flat(before) + batch == Flat(before);
      FilteredStep(c, n, before, batch);
      DrainDiffers(c, n, before, batch);
    }
  }

  lemma {:induction false} LastTogether(c: Config, batches: seq<Batch>)
    requires c.Valid() && AlwaysTogether(c, batches)
    ensures StandTogether(c, Flat(batches))
  {
    if batches == [] {
      assert Flat(batches) == [];
    }
  }

  lemma {:induction false} Prefix(c: Config, n: nat, before: seq<Batch>, batch: Batch)
    requires c.Valid() && BatchInOrder(c, Flat(before + [batch])) && InRange(Flat(before + [batch]), n)
    ensures Flat(before + [batch]) == Flat(before) + batch
    ensures BatchInOrder(c, Flat(before)) && InRange(Flat(before), n) && FilteredHolds(c, n, before)
    ensures OpenedTogether(c, Flat(before + [batch])) ==> OpenedTogether(c, Flat(before))
  {
    hide StartOf, FilteredHolds, SameOpening;
    FlatSnoc(before, batch);
    InOrderParts(c, Flat(before), batch);
    FilteredInvariant(c, n, before);
    MatchedConcat(c, Flat(before), batch);
  }

  /** Opened apart, some report tells, unless the stands part before. */
  lemma {:induction false} OpenedApart(c: Config, n: nat, batches: seq<Batch>)
    requires c.Valid() && BatchInOrder(c, Flat(batches)) && InRange(Flat(batches), n)
    requires Matched(c, Flat(batches)) != [] && !OpenedTogether(c, Flat(batches))
    requires AlwaysTogether(c, batches) && FirstBucket(Matched(c, Flat(batches))) < LastBucket(Matched(c, Flat(batches)))
    ensures !AllAgree(c, n, batches)
  {
    hide StartOf, Feed, BatchInOrder, ReportsAgree, SameOpening, InRange, FilteredHolds, FilteredReports, StandTogether;
    if batches == [] {
      NoMatches(c);
      assert false;
    }
    var before, batch := batches[..|batches| - 1], batches[|batches| - 1];
    assert batches == before + [batch];
    Prefix(c, n, before, batch);
    AllAgreeSnoc(c, n, before, batch);
    LastTogether(c, before);
    var m0 := Matched(c, Flat(before));
    MatchedConcat(c, Flat(before), batch);
    if batch == [] {
      assert Flat(before) + [] == Flat(before);
      OpenedApart(c, n, before);
    } else if m0 != [] && FirstBucket(m0) < LastBucket(m0) {
      OpenedApart(c, n, before);
    } else {
      if m0 != [] {
        OrderedWhole(c, Flat(before));
      }
      FilteredStep(c, n, before, batch);
      DrainDiffers(c, n, before, batch);
    }
  }

  /** For any filter and a stream whose buckets never go back: shards and single engine report
      the same at every drain and at the end if and only if, once an event has matched, the
      first event lay in the bucket of the first matching one (or windows tumble) and at
      every drain the newest event lies in the bucket of the newest matching one. */
  lemma {:induction false} FilteredAgrees(c: Config, n: nat, batches: seq<Batch>)
    requires c.Valid() && BatchInOrder(c, Flat(batches)) && InRange(Flat(batches), n)
    ensures AllAgree(c, n, batches) && ReportsAgree(Close(c, Feed(c, n, batches)))
       <==> OpenedTogether(c, Flat(batches)) && AlwaysTogether(c, batches)
  {
    hide StartOf, Feed, BatchInOrder, ReportsAgree, SameOpening, InRange, FilteredHolds, StandTogether, AllAgree, Close, Matched;
    FilteredInvariant(c, n, batches);
    if !AlwaysTogether(c, batches) {
      PartedTells(c, n, batches);
    } else {
      LastTogether(c, batches);
      if OpenedTogether(c, Flat(batches)) {
        PrefixesAgree(c, n, batches);
        EndAgrees(c, n, batches);
      } else {
        ApartMatched(c, Flat(batches));
        OrderedWhole(c, Flat(batches));
        if FirstBucket(Matched(c, Flat(batches))) < LastBucket(Matched(c, Flat(batches))) {
          OpenedApart(c, n, batches);
        } else {
          EndDiffers(c, n, batches);
        }
      }
    }
  }

  lemma {:induction false} ApartMatched(c: Config, a: Batch)
    requires c.Valid() && !OpenedTogether(c, a)
    ensures Matched(c, a) != []
  {
  }

  /** A filter can show on the simplest stream in order: an event that matches, and one a
      slide later that does not, in one batch. The shards have closed the first window, the
      single engine has not. No call is refused at the planned capacity. */
  lemma {:induction false} FilterShows(c: Config, hit: Sent, miss: Sent)
    requires c.slide == 10 && c.capacity == c.buckets && 0 < c.buckets
    requires hit == Sent(0, FlowEvent(0, [])) && miss == Sent(1, FlowEvent(10, []))
    requires c.filter(hit.event) && !c.filter(miss.event)
    ensures var batches := [[hit] + [miss]];
      && c.Valid() && BatchInOrder(c, Flat(batches)) && InRange(Flat(batches), 2) && StreamAccepted(c, 2, batches)
      && !(AllAgree(c, 2, batches) && ReportsAgree(Close(c, Feed(c, 2, batches))))
  {
    hide AllAgree, ReportsAgree, Feed, Close, StreamAccepted;
    var batch := [hit] + [miss];
    var none: seq<Batch> := [];
    assert [batch][..0] == none && none + [batch] == [batch];
    FlatSnoc(none, batch);
    assert Flat(none) + batch == batch;
    MatchedSnoc(c, [], hit);
    assert [] + [hit] == [hit];
    MatchedSnoc(c, [hit], miss);
    NoMatches(c);
    assert Matched(c, batch) == [RoutedAt(c, hit)];
    assert StartOf(c, hit) == 0 && StartOf(c, miss) == 10;
    assert !StandTogether(c, batch);
    FilteredAgrees(c, 2, [batch]);
    OneBatchAccepted(c, 2, batch);
  }

  lemma {:induction false} OneBatchAccepted(c: Config, n: nat, batch: Batch)
    requires c.Valid() && batch != [] && BatchInOrder(c, batch)
    requires LastStart(c, batch) <= StartOf(c, batch[0]) + c.capacity * c.slide
    ensures StreamAccepted(c, n, [batch])
  {
    hide StartOf, BatchInOrder, CanAll, Share, Whole, Drain;
    var none: seq<Batch> := [];
    assert [batch][..0] == none;
    var k := Fresh(n);
    OrderedEarliest(c, batch);
    OrderedLatest(c, batch);
    OrderedFirst(c, batch);
    var low, high := StartOf(c, batch[0]), LastStart(c, batch);
    CallsWithin(c, batch, 0);
    QueryAccepts(c, k.single, Whole(batch), NotOpen, low, high);
    forall i | 0 <= i < n
      ensures CanAll(c, Drain(k.shards[i]), Share(batch, i))
    {
      CallsWithin(c, batch, i);
      QueryAccepts(c, k.shards[i], Share(batch, i), NotOpen, low, high);
    }
  }
}
