/** One running query as a value: what each runtime call does to it. */
module QuerySpec {
  import opened WindowRing

  datatype Query = Query(ring: seq<Bucket>, emitted: seq<Window>, late: nat)

  predicate HasRoom(c: Config, q: Query, additional: nat) {
    |q.emitted| + additional <= c.capacity
  }

  predicate CanAdvance(c: Config, q: Query, target: nat)
    requires c.Valid()
  {
    HasRoom(c, q, WindowsClosed(c, q.ring, target))
  }

  predicate CanProcess(c: Config, q: Query, e: FlowEvent)
    requires c.Valid()
  {
    c.filter(e) ==> CanAdvance(c, q, BucketStart(c, e.ts))
  }

  predicate CanFinish(c: Config, q: Query) {
    q.ring != [] ==> HasRoom(c, q, 1)
  }

  function Advance(c: Config, q: Query, target: nat): Query
    requires c.Valid()
  {
    var a := FastAdvance(c, q.ring, target);
    q.(ring := a.ring, emitted := q.emitted + a.windows)
  }

  /** The index of the bucket that starts at `start`, or the ring's length. */
  function Position(ring: seq<Bucket>, start: nat): (i: nat)
    ensures i <= |ring|
    ensures i < |ring| ==> ring[i].start == start
    ensures forall j :: 0 <= j < i ==> ring[j].start != start
  {
    if ring == [] then 0
    else if ring[0].start == start then 0
    else
      var i := Position(ring[1..], start);
      assert forall j :: 1 <= j < i + 1 ==> ring[j] == ring[1..][j - 1];
      i + 1
  }

  function Put(ring: seq<Bucket>, i: nat, e: FlowEvent): seq<Bucket>
    requires i < |ring|
  {
    ring[i := ring[i].(events := ring[i].events + multiset{e})]
  }

  /** Count an event into its bucket, or as late when that bucket has expired. */
  function Place(q: Query, start: nat, e: FlowEvent): Query {
    var i := Position(q.ring, start);
    if i < |q.ring| then q.(ring := Put(q.ring, i, e)) else q.(late := q.late + 1)
  }

  function Process(c: Config, q: Query, e: FlowEvent): Query
    requires c.Valid()
  {
    if c.filter(e) then
      var start := BucketStart(c, e.ts);
      Place(Advance(c, q, start), start, e)
    else q
  }

  function TrailingWindow(c: Config, ring: seq<Bucket>): Window
    requires ring != []
  {
    Window(ring[0].start, Back(ring) + c.slide, Union(ring))
  }

  function Finish(c: Config, q: Query): Query {
    if q.ring == [] then q else q.(emitted := q.emitted + [TrailingWindow(c, q.ring)])
  }

  function Drain(q: Query): Query {
    q.(emitted := [])
  }
}
