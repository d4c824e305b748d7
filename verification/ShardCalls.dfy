/** The calls one shard gets for a batch, one after the other: which of them are accepted,
    and what the accepted ones do. */
module ShardCalls {
  import opened Arithmetic
  import opened GapRefinement
  import opened QuerySpec
  import opened Sharding
  import opened WindowRing

  datatype Call = Watermark(ts: nat) | Event(event: FlowEvent)

  function TimeOf(call: Call): nat {
    match call
    case Watermark(ts) => ts
    case Event(e) => e.ts
  }

  predicate Can(c: Config, q: Query, call: Call)
    requires c.Valid()
  {
    match call
    case Watermark(ts) => CanAdvance(c, q, BucketStart(c, ts))
    case Event(e) => CanProcess(c, q, e)
  }

  function Do(c: Config, q: Query, call: Call): Query
    requires c.Valid()
  {
    match call
    case Watermark(ts) => Advance(c, q, BucketStart(c, ts))
    case Event(e) => Process(c, q, e)
  }

  function DoAll(c: Config, q: Query, calls: seq<Call>): Query
    requires c.Valid()
  {
    if calls == [] then q else Do(c, DoAll(c, q, calls[..|calls| - 1]), calls[|calls| - 1])
  }

  /** No call is refused when all are made in order. */
  predicate CanAll(c: Config, q: Query, calls: seq<Call>)
    requires c.Valid()
  {
    calls == [] || (CanAll(c, q, calls[..|calls| - 1])
                    && Can(c, DoAll(c, q, calls[..|calls| - 1]), calls[|calls| - 1]))
  }

  /** A shard's own events of a batch, in stream order. */
  function OwnEvents(batch: Batch, i: nat): seq<FlowEvent> {
    if batch == [] then []
    else
      var s := batch[|batch| - 1];
      OwnEvents(batch[..|batch| - 1], i) + (if s.shard == i then [s.event] else [])
  }

  function Events(events: seq<FlowEvent>): (r: seq<Call>)
    ensures |r| == |events|
  {
    seq(|events|, t requires 0 <= t < |events| => Event(events[t]))
  }

  /** Seed at the batch's earliest time, handle the own events, advance to its latest time. */
  function Seeded(events: seq<FlowEvent>, earliest: nat, latest: nat): seq<Call> {
    [Watermark(earliest)] + Events(events) + [Watermark(latest)]
  }

  function Share(batch: Batch, i: nat): seq<Call> {
    if batch == [] then [] else Seeded(OwnEvents(batch, i), Earliest(batch), Latest(batch))
  }

  /** What one engine for the whole stream is called with. */
  function Whole(batch: Batch): seq<Call> {
    seq(|batch|, t requires 0 <= t < |batch| => Event(batch[t].event))
  }

  // --- taking calls apart ---

  lemma {:induction false} DoNext(c: Config, q: Query, calls: seq<Call>, call: Call)
    requires c.Valid()
    ensures DoAll(c, q, calls + [call]) == Do(c, DoAll(c, q, calls), call)
    ensures CanAll(c, q, calls + [call]) <==> CanAll(c, q, calls) && Can(c, DoAll(c, q, calls), call)
  {
    hide Do, Can;
    assert (calls + [call])[..|calls|] == calls;
  }

  lemma {:induction false} CanPrefix(c: Config, q: Query, calls: seq<Call>, t: nat)
    requires c.Valid() && CanAll(c, q, calls) && t <= |calls|
    ensures CanAll(c, q, calls[..t])
    ensures t < |calls| ==> Can(c, DoAll(c, q, calls[..t]), calls[t])
    decreases |calls|
  {
    hide Do, Can;
    if t == |calls| {
      assert calls[..t] == calls;
    } else {
      var init := calls[..|calls| - 1];
      assert init[..t] == calls[..t];
      if t < |init| {
        CanPrefix(c, q, init, t);
        assert init[t] == calls[t];
      } else {
        assert init == calls[..t];
      }
    }
  }

  lemma {:induction false} EventsNext(events: seq<FlowEvent>, e: FlowEvent)
    ensures Events(events + [e]) == Events(events) + [Event(e)]
  {
  }

  lemma {:induction false} DoConcat(c: Config, q: Query, a: seq<Call>, b: seq<Call>)
    requires c.Valid()
    ensures DoAll(c, q, a + b) == DoAll(c, DoAll(c, q, a), b)
  {
    hide Do;
    if b == [] {
      assert a + b == a;
    } else {
      assert (a + b)[..|a + b| - 1] == a + b[..|b| - 1];
      DoConcat(c, q, a, b[..|b| - 1]);
    }
  }

  lemma {:induction false} OwnIsFeedOwn(c: Config, q: Query, batch: Batch, i: nat)
    requires c.Valid()
    ensures DoAll(c, q, Events(OwnEvents(batch, i))) == FeedOwn(c, q, batch, i)
  {
    hide Process;
    if batch != [] {
      var init, s := batch[..|batch| - 1], batch[|batch| - 1];
      OwnIsFeedOwn(c, q, init, i);
      if s.shard == i {
        EventsNext(OwnEvents(init, i), s.event);
        DoNext(c, q, Events(OwnEvents(init, i)), Event(s.event));
      } else {
        assert OwnEvents(batch, i) == OwnEvents(init, i);
      }
    }
  }

  /** What a shard does with its calls is its share of the batch. */
  lemma {:induction false} ShareIsFeedShard(c: Config, q: Query, batch: Batch, i: nat)
    requires c.Valid()
    ensures DoAll(c, q, Share(batch, i)) == FeedShard(c, q, batch, i)
  {
    hide FeedOwn, Advance, BucketStart, OwnEvents;
    if batch != [] {
      var first, events, last := Watermark(Earliest(batch)), Events(OwnEvents(batch, i)), Watermark(Latest(batch));
      assert [] + [first] == [first];
      DoNext(c, q, [], first);
      DoConcat(c, q, [first], events);
      DoNext(c, q, [first] + events, last);
      OwnIsFeedOwn(c, Advance(c, q, BucketStart(c, Earliest(batch))), batch, i);
    }
  }

  lemma {:induction false} WholeIsFeedSingle(c: Config, q: Query, batch: Batch)
    requires c.Valid()
    ensures DoAll(c, q, Whole(batch)) == FeedSingle(c, q, batch)
  {
    hide Process;
    if batch != [] {
      var init := batch[..|batch| - 1];
      WholeIsFeedSingle(c, q, init);
      assert Whole(batch)[..|batch| - 1] == Whole(init);
    }
  }

  // --- what a drained query accepts ---

  /** The windows pending were closed on the way from `low` to the newest bucket. */
  ghost predicate Paid(c: Config, q: Query, low: nat, high: nat)
    requires c.Valid()
  {
    if q.ring == [] then q.emitted == []
    else Contiguous(c, q.ring) && |q.emitted| * c.slide + low <= Back(q.ring) <= high
  }

  lemma {:induction false} FewSlides(s: nat, a: nat, b: nat)
    requires 0 < s && a <= b
    ensures (b - a) / s * s <= b - a
  {
    DivMod(b - a, s);
  }

  lemma {:induction false} FitsCapacity(count: nat, slide: nat, capacity: nat, span: nat)
    requires count * slide <= span <= capacity * slide && 0 < slide
    ensures count <= capacity
  {
    if capacity < count {
      MulStrict(capacity, count, slide);
      assert false;
    }
  }

  lemma {:induction false} AdvancePaid(c: Config, q: Query, target: nat, low: nat, high: nat)
    requires c.Valid() && Paid(c, q, low, high) && Aligned(c, target) && target <= high
    requires q.ring == [] ==> low <= target
    requires low <= high <= low + c.capacity * c.slide
    ensures CanAdvance(c, q, target) && Paid(c, Advance(c, q, target), low, high)
    ensures Advance(c, q, target).ring != [] && target <= Back(Advance(c, q, target).ring)
  {
    hide FastAdvance, Contiguous, Aligned;
    FastRing(c, q.ring, target);
    if q.ring != [] {
      var closed := WindowsClosed(c, q.ring, target);
      if Back(q.ring) < target {
        FewSlides(c.slide, Back(q.ring), target);
        MulMonotone(closed, (target - Back(q.ring)) / c.slide, c.slide);
      }
      MulAdd(|q.emitted|, closed, c.slide);
      FitsCapacity(|q.emitted| + closed, c.slide, c.capacity, Max(Back(q.ring), target) - low);
    } else {
      assert 0 * c.slide == 0;
    }
  }

  /** The ring, its newest bucket and the number of windows after an advance. */
  lemma {:induction false} FastRing(c: Config, ring: seq<Bucket>, target: nat)
    requires c.Valid() && Contiguous(c, ring) && Aligned(c, target)
    ensures var a := FastAdvance(c, ring, target);
      && a.ring != [] && Contiguous(c, a.ring) && |a.windows| == WindowsClosed(c, ring, target)
      && Back(a.ring) == if ring == [] then target else Max(Back(ring), target)
  {
    FastRefinesSlow(c, ring, target);
    if ring != [] {
      SlideTimesShape(c, ring, SlidesTo(c, ring, target));
      if Back(ring) <= target {
        SlidesReachTarget(c, ring, target);
      }
    }
  }

  lemma {:induction false} CallPaid(c: Config, q: Query, call: Call, low: nat, high: nat)
    requires c.Valid() && Paid(c, q, low, high) && BucketStart(c, TimeOf(call)) <= high
    requires q.ring == [] ==> low <= BucketStart(c, TimeOf(call))
    requires low <= high <= low + c.capacity * c.slide
    ensures Can(c, q, call) && Paid(c, Do(c, q, call), low, high)
  {
    hide BucketStart, FastAdvance, Contiguous;
    var start := BucketStart(c, TimeOf(call));
    AdvancePaid(c, q, start, low, high);
    if call.Event? && c.filter(call.event) {
      PlacePaid(c, Advance(c, q, start), start, call.event, low, high);
    }
  }

  lemma {:induction false} PlacePaid(c: Config, q: Query, start: nat, e: FlowEvent, low: nat, high: nat)
    requires c.Valid() && Paid(c, q, low, high) && q.ring != []
    ensures Paid(c, Place(q, start, e), low, high)
  {
  }

  /** A drained query accepts every batch that goes no further than its capacity in slides
      past its newest bucket, or, before it has one, past the earliest time. */
  lemma {:induction false} ShortBatchAccepted(c: Config, q: Query, calls: seq<Call>, low: nat, high: nat)
    requires c.Valid() && Paid(c, q, low, high)
    requires forall t :: 0 <= t < |calls| ==> BucketStart(c, TimeOf(calls[t])) <= high
    requires q.ring == [] ==> forall t :: 0 <= t < |calls| ==> low <= BucketStart(c, TimeOf(calls[t]))
    requires low <= high <= low + c.capacity * c.slide
    ensures CanAll(c, q, calls) && Paid(c, DoAll(c, q, calls), low, high)
  {
    hide BucketStart, Do, Can, Paid;
    if calls != [] {
      var init, last := calls[..|calls| - 1], calls[|calls| - 1];
      ShortBatchAccepted(c, q, init, low, high);
      assert BucketStart(c, TimeOf(last)) <= high;
      if q.ring != [] {
        OpenStays(c, q, init);
      }
      CallPaid(c, DoAll(c, q, init), last, low, high);
    }
  }

  /** An open ring is never emptied. */
  lemma {:induction false} OpenStays(c: Config, q: Query, calls: seq<Call>)
    requires c.Valid() && q.ring != []
    ensures DoAll(c, q, calls).ring != []
  {
    hide BucketStart;
    if calls != [] {
      var init, last := calls[..|calls| - 1], calls[|calls| - 1];
      OpenStays(c, q, init);
      var before := DoAll(c, q, init);
      assert Advance(c, before, BucketStart(c, TimeOf(last))).ring != [];
    }
  }
}
