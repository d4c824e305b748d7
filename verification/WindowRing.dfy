/** The value-level meaning of one running query's window machinery: a sliding
    window kept as a ring of tumbling buckets, and what advancing event time
    does to it. Times are nanoseconds. A sketch state is represented by the
    multiset of events it has absorbed, the free commutative summary. */
module WindowRing {
  import opened Arithmetic

  datatype FlowEvent = FlowEvent(ts: nat, fields: seq<nat>)

  datatype Bucket = Bucket(start: nat, events: multiset<FlowEvent>)

  datatype Window = Window(start: nat, end: nat, events: multiset<FlowEvent>)

  /** The part of a plan the runtime consults. `capacity` bounds the completed
      windows a query may hold before its consumer drains them. */
  datatype Config = Config(slide: nat, buckets: nat, capacity: nat, filter: FlowEvent -> bool)
  {
    ghost predicate Valid() {
      0 < slide && 0 < buckets
    }
  }

  type Plan = c: Config | c.Valid() witness Config(1, 1, 1, (e: FlowEvent) => true)

  datatype Advanced = Advanced(ring: seq<Bucket>, windows: seq<Window>)

  function Min(a: nat, b: nat): nat {
    if a < b then a else b
  }

  function Max(a: int, b: int): int {
    if a < b then b else a
  }

  ghost predicate Aligned(c: Config, t: nat)
    requires c.Valid()
  {
    t % c.slide == 0
  }

  function BucketStart(c: Config, ts: nat): (start: nat)
    requires c.Valid()
    ensures Aligned(c, start) && start <= ts < start + c.slide
  {
    AlignDown(ts, c.slide);
    ts - ts % c.slide
  }

  /** Everything the open buckets hold: the state a flush merges. */
  function Union(ring: seq<Bucket>): multiset<FlowEvent> {
    if ring == [] then multiset{} else ring[0].events + Union(ring[1..])
  }

  function Back(ring: seq<Bucket>): nat
    requires ring != []
  {
    ring[|ring| - 1].start
  }

  /** The ring is contiguous, aligned and no longer than the window. */
  ghost predicate Contiguous(c: Config, ring: seq<Bucket>)
    requires c.Valid()
  {
    && |ring| <= c.buckets
    && (forall i :: 0 <= i < |ring| ==> Aligned(c, ring[i].start))
    && (forall i, j :: 0 <= i < j < |ring| && j == i + 1 ==> ring[j].start == ring[i].start + c.slide)
  }

  /** Where a bucket of a contiguous ring starts, by its index. */
  lemma {:induction false} StartAt(c: Config, ring: seq<Bucket>, i: nat)
    requires c.Valid() && Contiguous(c, ring) && i < |ring|
    ensures ring[i].start == ring[0].start + i * c.slide
  {
    if i > 0 {
      StartAt(c, ring, i - 1);
      assert i * c.slide == (i - 1) * c.slide + c.slide;
    }
  }

  /** One slide: the window ending at the next bucket boundary closes over all
      open buckets, an empty bucket opens, and the oldest one expires. */
  function Slide(c: Config, ring: seq<Bucket>): (r: Advanced)
    requires c.Valid() && ring != []
    ensures r.ring != []
  {
    var next := Back(ring) + c.slide;
    var grown := ring + [Bucket(next, multiset{})];
    Advanced(if |grown| > c.buckets then grown[|grown| - c.buckets..] else grown,
             [Window(ring[0].start, next, Union(ring))])
  }

  function SlideTimes(c: Config, ring: seq<Bucket>, k: nat): (r: Advanced)
    requires c.Valid() && ring != []
    ensures r.ring != [] && |r.windows| == k
  {
    if k == 0 then Advanced(ring, [])
    else
      var before := SlideTimes(c, ring, k - 1);
      var last := Slide(c, before.ring);
      Advanced(last.ring, before.windows + last.windows)
  }

  /** The number of slides between the newest bucket and an aligned target. */
  function SlidesTo(c: Config, ring: seq<Bucket>, target: nat): nat
    requires c.Valid()
  {
    if ring == [] || target <= Back(ring) then 0 else (target - Back(ring)) / c.slide
  }

  /** Reference semantics: close one window per slide, however long the gap. */
  function SlowAdvance(c: Config, ring: seq<Bucket>, target: nat): Advanced
    requires c.Valid()
  {
    if ring == [] then Advanced([Bucket(target, multiset{})], [])
    else SlideTimes(c, ring, SlidesTo(c, ring, target))
  }

  /** `count` empty buckets, one slide apart, from `start` on. */
  function EmptyBuckets(c: Config, start: nat, count: nat): (r: seq<Bucket>)
    ensures |r| == count
  {
    if count == 0 then []
    else EmptyBuckets(c, start, count - 1) + [Bucket(start + (count - 1) * c.slide, multiset{})]
  }

  /** The full trailing ring of empty buckets that ends at `target`. */
  function TrailingRing(c: Config, target: nat): seq<Bucket>
    requires c.Valid()
  {
    var reach := Min(c.buckets - 1, target / c.slide);
    MultipleFits(c.slide, reach, target);
    EmptyBuckets(c, target - c.slide * reach, reach + 1)
  }

  lemma {:induction false} MultipleFits(s: nat, k: nat, t: nat)
    requires 0 < s && k <= t / s
    ensures s * k <= t
  {
    DivMod(t, s);
    MulMonotone(k, t / s, s);
  }

  /** Pushing buckets from the first start on, the target is reached with the last bucket
      of a full ring and no earlier. */
  lemma {:induction false} TrailingEnd(s: nat, reach: nat, count: nat)
    requires 0 < s && 1 <= count <= reach + 1
    ensures (count - 1) * s + s == count * s
    ensures (count - 1) * s == s * reach <==> count == reach + 1
  {
    MulSucc(count - 1, s);
    if count - 1 < reach {
      MulStrict(count - 1, reach, s);
    }
  }

  /** What the runtime does: a gap longer than the window closes only the
      decaying trailing windows and rebuilds the ring at the target. */
  function FastAdvance(c: Config, ring: seq<Bucket>, target: nat): Advanced
    requires c.Valid()
  {
    if ring != [] && SlidesTo(c, ring, target) > c.buckets then
      Advanced(TrailingRing(c, target), SlideTimes(c, ring, c.buckets).windows)
    else
      SlowAdvance(c, ring, target)
  }

  /** The preflight count of windows an advance will push. */
  function WindowsClosed(c: Config, ring: seq<Bucket>, target: nat): nat
    requires c.Valid()
  {
    Min(SlidesTo(c, ring, target), c.buckets)
  }

  function NonEmpty(windows: seq<Window>): seq<Window> {
    if windows == [] then []
    else
      NonEmpty(windows[..|windows| - 1])
      + (if windows[|windows| - 1].events == multiset{} then [] else [windows[|windows| - 1]])
  }

  lemma {:induction false} NonEmptyConcat(a: seq<Window>, b: seq<Window>)
    ensures NonEmpty(a + b) == NonEmpty(a) + NonEmpty(b)
  {
    if b == [] {
      assert a + b == a;
    } else {
      assert (a + b)[..|a + b| - 1] == a + b[..|b| - 1];
      NonEmptyConcat(a, b[..|b| - 1]);
    }
  }
}
