/** Windows as HyperLogLog sketches: events stand for their set of distinct hashes, so
    windows with the same events hold the same bytes however they were put together. */
module DistinctWindows {
  import opened HashSpecs
  import opened HllSpec
  import opened HyperLogLogs
  import opened Options
  import opened QuerySpec
  import opened Reports
  import opened ShardAgreement
  import opened Sharding
  import opened ShardTheorem
  import opened WindowRing

  ghost function Hashes(hash: FlowEvent -> nat, events: multiset<FlowEvent>): set<nat> {
    set e | e in events :: hash(e)
  }

  /** Sketching is a homomorphism: the sketch of two merged windows is the union's. */
  lemma {:induction false} HashesOfSum(hash: FlowEvent -> nat, a: multiset<FlowEvent>, b: multiset<FlowEvent>)
    ensures Hashes(hash, a + b) == Hashes(hash, a) + Hashes(hash, b)
  {
    forall h | h in Hashes(hash, a) + Hashes(hash, b)
      ensures h in Hashes(hash, a + b)
    {
      if h in Hashes(hash, a) {
        var e :| e in a && hash(e) == h;
        assert e in a + b;
      } else {
        var e :| e in b && hash(e) == h;
        assert e in a + b;
      }
    }
  }

  /** The storage of all shards' windows merged, one shard after the other. */
  ghost predicate MergedStorage(p: Precision, hash: FlowEvent -> nat, shards: seq<Query>, key: Bounds, storage: Storage) {
    Canonical(p, ShardHashes(hash, shards, key), storage)
  }

  ghost function ShardHashes(hash: FlowEvent -> nat, shards: seq<Query>, key: Bounds): set<nat> {
    if shards == [] then {}
    else
      ShardHashes(hash, shards[..|shards| - 1], key) + Hashes(hash, EventsAt(shards[|shards| - 1].emitted, key))
  }

  lemma {:induction false} ShardHashesTogether(hash: FlowEvent -> nat, shards: seq<Query>, key: Bounds)
    ensures ShardHashes(hash, shards, key) == Hashes(hash, EventsAt(AllEmitted(shards), key))
  {
    hide Hashes, EventsAt;
    if shards == [] {
      NoHashes(hash, key);
    } else {
      var init, last := shards[..|shards| - 1], shards[|shards| - 1];
      ShardHashesTogether(hash, init, key);
      EventsAtConcat(AllEmitted(init), last.emitted, key);
      HashesOfSum(hash, EventsAt(AllEmitted(init), key), EventsAt(last.emitted, key));
    }
  }

  lemma {:induction false} NoHashes(hash: FlowEvent -> nat, key: Bounds)
    ensures Hashes(hash, EventsAt([], key)) == {}
  {
  }

  /** What the windows with these bounds hold so far is in one sketch, if there is any. */
  ghost predicate HoldsAt(p: Precision, spec: HashSpec, hash: FlowEvent -> nat, windows: seq<Window>, key: Bounds,
                          merged: Option<HyperLogLog>)
    reads if merged.Some? then {merged.value} else {}
  {
    match merged
    case None => forall w :: w in windows ==> (w.start, w.end) != key
    case Some(sketch) =>
      && sketch.Valid() && sketch.precision == p && sketch.hashSpec == spec
      && sketch.seen == Hashes(hash, EventsAt(windows, key))
  }

  /** Merging the sketches of all shards' windows under the same bounds, the first of them
      taking in the others, leaves the merged storage; no sketch is left only when no window
      has these bounds. */
  method MergeSketches(p: Precision, spec: HashSpec, ghost hash: FlowEvent -> nat, ghost shards: seq<Query>,
                       windows: seq<Window>, sketches: seq<HyperLogLog>, key: Bounds) returns (merged: Option<HyperLogLog>)
    requires windows == AllEmitted(shards) && |sketches| == |windows|
    requires forall i, j :: 0 <= i < j < |sketches| ==> sketches[i] != sketches[j]
    requires forall i :: 0 <= i < |sketches| ==>
      && sketches[i].Valid() && sketches[i].precision == p && sketches[i].hashSpec == spec
      && sketches[i].seen == Hashes(hash, windows[i].events)
    modifies sketches
    ensures merged.None? <==> forall w :: w in windows ==> (w.start, w.end) != key
    ensures merged.Some? ==> MergedStorage(p, hash, shards, key, merged.value.storage)
  {
    hide Hashes, EventsAt, Canonical;
    merged := None;
    for i := 0 to |windows|
      invariant HoldsAt(p, spec, hash, windows[..i], key, merged)
      invariant merged.Some? ==> merged.value in sketches[..i]
      invariant merged.Some? ==> exists w :: w in windows && (w.start, w.end) == key
      invariant forall j :: i <= j < |sketches| ==>
        && sketches[j].Valid() && sketches[j].precision == p && sketches[j].hashSpec == spec
        && sketches[j].seen == Hashes(hash, windows[j].events)
    {
      var w := windows[i];
      assert windows[..i + 1] == windows[..i] + [w];
      HashesNext(hash, windows[..i], w, key);
      if (w.start, w.end) == key {
        if merged.None? {
          NothingAt(windows[..i], key);
          NoEvents(hash);
          assert {} + Hashes(hash, w.events) == Hashes(hash, w.events);
          merged := Some(sketches[i]);
        } else {
          var ok := merged.value.MergeFrom(sketches[i]);
        }
      }
    }
    assert windows[..|windows|] == windows;
    ShardHashesTogether(hash, shards, key);
  }

  lemma {:induction false} HashesNext(hash: FlowEvent -> nat, windows: seq<Window>, w: Window, key: Bounds)
    ensures Hashes(hash, EventsAt(windows + [w], key))
         == if (w.start, w.end) == key then Hashes(hash, EventsAt(windows, key)) + Hashes(hash, w.events)
            else Hashes(hash, EventsAt(windows, key))
  {
    hide Hashes;
    EventsAtConcat(windows, [w], key);
    EventsAtOne(w, key);
    HashesOfSum(hash, EventsAt(windows, key), w.events);
    assert EventsAt(windows, key) + multiset{} == EventsAt(windows, key);
  }

  lemma {:induction false} NothingAt(windows: seq<Window>, key: Bounds)
    requires forall w :: w in windows ==> (w.start, w.end) != key
    ensures EventsAt(windows, key) == multiset{}
  {
    if windows != [] {
      NothingAt(windows[..|windows| - 1], key);
      assert windows[|windows| - 1] in windows;
    }
  }

  lemma {:induction false} NoEvents(hash: FlowEvent -> nat)
    ensures Hashes(hash, multiset{}) == {}
  {
  }

  /** Equal reports mean equal bytes: the merged shards hold the single engine's storage. */
  lemma {:induction false} AgreementKeepsStorage(p: Precision, hash: FlowEvent -> nat, k: Cluster, key: Bounds,
                                                 single: Storage, merged: Storage)
    requires ReportsAgree(k)
    requires Canonical(p, Hashes(hash, EventsAt(k.single.emitted, key)), single)
    requires MergedStorage(p, hash, k.shards, key, merged)
    ensures single == merged
  {
    hide Canonical, Hashes, EventsAt, AllEmitted;
    ShardHashesTogether(hash, k.shards, key);
    CanonicalUnique(p, Hashes(hash, EventsAt(k.single.emitted, key)), single, merged);
  }

  /** Where sharding changes no report it changes no byte of a window's sketch either,
      at any drain and at the end of the stream. */
  lemma {:induction false} ShardingKeepsStorage(c: Config, n: nat, batches: seq<Batch>, p: Precision, hash: FlowEvent -> nat,
                                                k: Cluster, key: Bounds, single: Storage, merged: Storage)
    requires c.Valid() && Dispatched(c, n, batches)
    requires var w := Where(c, batches);
      w.Open? ==> SameOpening(c, w.fs, w.fh) && AllInStep(c, w.fh, StreamRoutes(c, batches))
    requires k == Close(c, Feed(c, n, batches)) || (batches != [] && k == Feed(c, n, batches))
    requires Canonical(p, Hashes(hash, EventsAt(k.single.emitted, key)), single)
    requires MergedStorage(p, hash, k.shards, key, merged)
    ensures single == merged
  {
    hide Canonical, MergedStorage, Hashes, EventsAt, Feed, Close, AllInStep, SameOpening, Where;
    ShardingAgrees(c, n, batches);
    assert batches[..|batches|] == batches;
    AgreementKeepsStorage(p, hash, k, key, single, merged);
  }
}
