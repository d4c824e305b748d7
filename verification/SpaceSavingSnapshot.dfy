/** Serializing a SpaceSaving summary and restoring it. */
module SpaceSavingSnapshots {
  import opened Bytes
  import opened HashSpecs
  import opened KeyOrder
  import opened RankedCandidates
  import opened SnapshotCodec
  import opened SpaceSavingArena
  import opened SpaceSavingSpec
  import opened SpaceSavings

  const SPACE_SAVING: nat := 4
  const SMALLEST_ITEM: nat := 4 + 8 + 8

  // --- the deterministic order ---

  ghost predicate KeySorted(s: seq<Candidate>) {
    forall i, j :: 0 <= i < j < |s| ==> Less(s[i].key, s[j].key)
  }

  /** `s` lists the map in key order. */
  ghost predicate IsListing(m: Tracked, s: seq<Candidate>) {
    KeySorted(s) && Distinct(s) && MapOf(s) == m
  }

  function InsertByKey(s: seq<Candidate>, c: Candidate): (r: seq<Candidate>)
    ensures multiset(r) == multiset(s) + multiset{c}
  {
    if s == [] || Less(s[|s| - 1].key, c.key) then s + [c]
    else
      assert s == s[..|s| - 1] + [s[|s| - 1]];
      InsertByKey(s[..|s| - 1], c) + [s[|s| - 1]]
  }

  function SortByKey(s: seq<Candidate>): (r: seq<Candidate>)
    ensures multiset(r) == multiset(s)
  {
    if s == [] then []
    else
      assert s == s[..|s| - 1] + [s[|s| - 1]];
      InsertByKey(SortByKey(s[..|s| - 1]), s[|s| - 1])
  }

  lemma {:induction false} InsertByKeySorts(s: seq<Candidate>, c: Candidate)
    requires KeySorted(s) && forall i :: 0 <= i < |s| ==> s[i].key != c.key
    ensures KeySorted(InsertByKey(s, c))
  {
    hide Less;
    if s != [] {
      var init, last := s[..|s| - 1], s[|s| - 1];
      LessTotal(last.key, c.key);
      if Less(last.key, c.key) {
        forall i | 0 <= i < |s|
          ensures Less(s[i].key, c.key)
        {
          if i < |s| - 1 {
            LessTrans(s[i].key, last.key, c.key);
          }
        }
      } else {
        InsertByKeySorts(init, c);
        var r := InsertByKey(init, c);
        forall i | 0 <= i < |r|
          ensures Less(r[i].key, last.key)
        {
          assert r[i] in multiset(r);
          if r[i] != c {
            assert r[i] in init;
          }
        }
      }
    }
  }

  lemma {:induction false} SortByKeyLists(s: seq<Candidate>)
    requires Distinct(s)
    ensures IsListing(MapOf(s), SortByKey(s)) && |SortByKey(s)| == |s|
  {
    hide MapOf, InsertByKey, Less;
    if s != [] {
      var init, last := s[..|s| - 1], s[|s| - 1];
      SortByKeyLists(init);
      var sorted := SortByKey(init);
      forall i | 0 <= i < |sorted|
        ensures sorted[i].key != last.key
      {
        assert sorted[i] in multiset(sorted);
        assert sorted[i] in init;
      }
      InsertByKeySorts(sorted, last);
    }
    KeySortedDistinct(SortByKey(s));
    SameElements(s, SortByKey(s));
  }

  lemma {:induction false} KeySortedDistinct(s: seq<Candidate>)
    requires KeySorted(s)
    ensures Distinct(s)
  {
    hide Less;
    forall i, j | 0 <= i < j < |s|
      ensures s[i].key != s[j].key
    {
      LessIrreflexive(s[i].key);
    }
  }

  lemma {:induction false} LastIsGreatest(s: seq<Candidate>, k: Key)
    requires s != [] && KeySorted(s) && Distinct(s) && k in MapOf(s)
    ensures k == s[|s| - 1].key || Less(k, s[|s| - 1].key)
  {
    hide MapOf, Less;
    var i :| 0 <= i < |s| && s[i].key == k;
  }

  lemma {:induction false} ListingInit(m: Tracked, s: seq<Candidate>)
    requires IsListing(m, s) && s != []
    ensures s[|s| - 1].key in m && m[s[|s| - 1].key] == s[|s| - 1].entry
    ensures IsListing(m - {s[|s| - 1].key}, s[..|s| - 1])
  {
    hide MapOf, Less;
    var init, last := s[..|s| - 1], s[|s| - 1];
    assert s == init + [last];
    assert forall i :: 0 <= i < |init| ==> init[i] == s[i];
    forall k | k in m - {last.key}
      ensures exists i :: 0 <= i < |init| && init[i].key == k
    {
      var i :| 0 <= i < |s| && s[i].key == k;
      assert init[i].key == k;
    }
    SameMap(init, m - {last.key});
  }

  lemma {:induction false} ListingSize(m: Tracked, s: seq<Candidate>)
    requires IsListing(m, s)
    ensures |m| == |s|
  {
    hide MapOf, KeySorted, Distinct;
    MapSize(s);
  }

  lemma {:induction false} ListingLast(m: Tracked, s: seq<Candidate>, k: Key)
    requires IsListing(m, s) && s != [] && k in m
    ensures k == s[|s| - 1].key || Less(k, s[|s| - 1].key)
  {
    hide MapOf, Less, KeySorted, Distinct;
    LastIsGreatest(s, k);
  }

  /** A map has one listing, so serialization depends only on the map. */
  lemma {:induction false} ListingUnique(m: Tracked, s: seq<Candidate>, t: seq<Candidate>)
    requires IsListing(m, s) && IsListing(m, t)
    ensures s == t
    decreases |s|
  {
    hide IsListing, Less;
    ListingSize(m, s);
    ListingSize(m, t);
    if s != [] {
      var x, y := s[|s| - 1], t[|t| - 1];
      ListingInit(m, s);
      ListingInit(m, t);
      ListingLast(m, s, y.key);
      ListingLast(m, t, x.key);
      if x.key != y.key {
        LessTrans(x.key, y.key, x.key);
        LessIrreflexive(x.key);
        assert false;
      }
      ListingUnique(m - {x.key}, s[..|s| - 1], t[..|t| - 1]);
      assert s == s[..|s| - 1] + [x] && t == t[..|t| - 1] + [y];
    }
  }

  // --- the payload ---

  function ItemBytes(c: Candidate): seq<Byte> {
    Lp(c.key) + Le(c.entry.count, 8) + Le(c.entry.error, 8)
  }

  function ItemsBytes(s: seq<Candidate>): seq<Byte> {
    if s == [] then [] else ItemsBytes(s[..|s| - 1]) + ItemBytes(s[|s| - 1])
  }

  function PayloadFront(totalWeight: nat, updates: nat, count: nat): seq<Byte> {
    Le(totalWeight, 8) + Le(updates, 8) + Le(count, 4)
  }

  datatype Saved = Saved(capacity: nat, hashSpec: HashSpec, totalWeight: nat, updates: nat, items: seq<Candidate>)

  function Payload(s: Saved): seq<Byte> {
    PayloadFront(s.totalWeight, s.updates, |s.items|) + ItemsBytes(s.items)
  }

  function SnapshotOf(s: Saved, windowStart: nat, windowEnd: nat): Snapshot {
    Snapshot(Header(SNAPSHOT_VERSION, SPACE_SAVING, s.hashSpec, windowStart, windowEnd), Le(s.capacity, 8), Payload(s))
  }

  function Encoded(hash: seq<Byte> -> U64, s: Saved, windowStart: nat, windowEnd: nat): seq<Byte> {
    Sealed(hash, Body(SnapshotOf(s, windowStart, windowEnd)))
  }

  /** `saved` is what a summary says of itself, with its keys in order. */
  ghost predicate Saves(saved: Saved, summary: SpaceSaving)
    requires summary.Valid()
    reads summary
  {
    && saved.capacity == summary.capacity && saved.hashSpec == summary.hashSpec
    && saved.totalWeight == summary.totalWeight && saved.updates == summary.updates
    && IsListing(summary.Tracks(), saved.items)
  }

  method ToSnapshot(hash: seq<Byte> -> U64, summary: SpaceSaving, windowStart: nat, windowEnd: nat)
    returns (bytes: seq<Byte>, saved: Saved)
    requires summary.Valid()
    ensures Saves(saved, summary) && bytes == Encoded(hash, saved, windowStart, windowEnd)
  {
    hide Le, Lp, Body, Sealed, MapOf, SortByKey, IsListing, Payload;
    var listed := summary.Listing();
    SortByKeyLists(listed);
    saved := Saved(summary.capacity, summary.hashSpec, summary.totalWeight, summary.updates, SortByKey(listed));
    var params := new Writer();
    params.U64(summary.capacity);
    assert params.buf == Le(summary.capacity, 8);
    var payload := WritePayload(saved);
    bytes := WriteSnapshot(hash, Header(SNAPSHOT_VERSION, SPACE_SAVING, summary.hashSpec, windowStart, windowEnd),
                           params.buf, payload);
  }

  method WritePayload(saved: Saved) returns (bytes: seq<Byte>)
    ensures bytes == Payload(saved)
  {
    hide Le, Lp, PayloadFront, ItemsBytes;
    var payload := new Writer();
    payload.U64(saved.totalWeight);
    payload.U64(saved.updates);
    payload.U32(|saved.items|);
    FrontPieces(saved.totalWeight, saved.updates, |saved.items|);
    ghost var front := payload.buf;
    NoItems(saved.items);
    for i := 0 to |saved.items|
      invariant payload.buf == front + ItemsBytes(saved.items[..i])
    {
      payload.LpBytes(saved.items[i].key);
      payload.U64(saved.items[i].entry.count);
      payload.U64(saved.items[i].entry.error);
      NextItemBytes(saved.items, i);
    }
    assert saved.items[..|saved.items|] == saved.items;
    bytes := payload.buf;
  }

  lemma {:induction false} NoItems(s: seq<Candidate>)
    ensures ItemsBytes(s[..0]) == []
  {
  }

  lemma {:induction false} FrontPieces(totalWeight: nat, updates: nat, count: nat)
    ensures [] + Le(totalWeight, 8) + Le(updates, 8) + Le(count, 4) == PayloadFront(totalWeight, updates, count)
  {
    hide Le;
  }

  lemma {:induction false} NextItemBytes(s: seq<Candidate>, i: nat)
    requires i < |s|
    ensures ItemsBytes(s[..i + 1]) == ItemsBytes(s[..i]) + (Lp(s[i].key) + Le(s[i].entry.count, 8) + Le(s[i].entry.error, 8))
  {
    assert s[..i + 1][..i] == s[..i];
  }

  /** Summaries with equal configuration, totals and maps serialize to the same bytes,
      however their arenas are laid out. */
  lemma {:induction false} SameMapSameBytes(hash: seq<Byte> -> U64, a: SpaceSaving, b: SpaceSaving, s: Saved, t: Saved,
                                            windowStart: nat, windowEnd: nat)
    requires a.Valid() && b.Valid() && Saves(s, a) && Saves(t, b)
    requires a.capacity == b.capacity && a.hashSpec == b.hashSpec
    requires a.totalWeight == b.totalWeight && a.updates == b.updates && a.Tracks() == b.Tracks()
    ensures Encoded(hash, s, windowStart, windowEnd) == Encoded(hash, t, windowStart, windowEnd)
  {
    ListingUnique(a.Tracks(), s.items, t.items);
  }

  // --- restoring ---

  datatype Parsed = Parsed(items: seq<Candidate>, next: nat)

  predicate Lists(s: seq<Candidate>, key: Key) {
    exists i :: 0 <= i < |s| && s[i].key == key
  }

  function ItemsAt(payload: seq<Byte>, pos: nat, count: nat): Result<Parsed> {
    if count == 0 then Ok(Parsed([], pos))
    else
      var before :- ItemsAt(payload, pos, count - 1);
      ItemAfter(payload, before)
  }

  function ItemAfter(payload: seq<Byte>, before: Parsed): Result<Parsed> {
    var key :- LpAt(payload, before.next);
    var n :- Number(payload, before.next + 4 + |key|, 8);
    var error :- Number(payload, before.next + 12 + |key|, 8);
    if error > n then Err(ErrorAboveCount)
    else if Lists(before.items, key) then Err(DuplicateKey)
    else Ok(Parsed(before.items + [Candidate(key, Entry(n, error))], before.next + 20 + |key|))
  }

  function ParseSaved(hash: seq<Byte> -> U64, bytes: seq<Byte>): Result<Saved> {
    var snapshot :- SnapshotCodec.Parse(hash, bytes);
    if snapshot.header.algorithmId != SPACE_SAVING then Err(WrongAlgorithm)
    else ParsePayload(snapshot)
  }

  datatype Front = Front(capacity: nat, totalWeight: nat, updates: nat, count: nat)

  /** Everything before the items. */
  function ParseFront(snapshot: Snapshot): Result<Front> {
    var capacity :- Number(snapshot.params, 0, 8);
    if capacity == 0 then Err(BadCapacity)
    else
      var payload := snapshot.payload;
      var totalWeight :- Number(payload, 0, 8);
      var updates :- Number(payload, 8, 8);
      var n :- Number(payload, 16, 4);
      if n > capacity then Err(TooManySlots)
      else if |payload| < 20 || !CountFits(|payload| - 20, n, SMALLEST_ITEM) then Err(BadCount)
      else Ok(Front(capacity, totalWeight, updates, n))
  }

  function ParsePayload(snapshot: Snapshot): Result<Saved> {
    var front :- ParseFront(snapshot);
    var parsed :- ItemsAt(snapshot.payload, 20, front.count);
    Ok(Saved(front.capacity, snapshot.header.hash, front.totalWeight, front.updates, parsed.items))
  }

  lemma {:induction false} ItemsAreSound(payload: seq<Byte>, pos: nat, count: nat)
    requires ItemsAt(payload, pos, count).Ok?
    ensures var items := ItemsAt(payload, pos, count).value.items;
      && |items| == count && Distinct(items)
      && forall i :: 0 <= i < |items| ==> items[i].entry.error <= items[i].entry.count
  {
    hide LpAt, Number;
    if count > 0 {
      ItemsAreSound(payload, pos, count - 1);
      var before, after := ItemsAt(payload, pos, count - 1).value.items, ItemsAt(payload, pos, count).value.items;
      assert after == before + [after[count - 1]];
      forall i | 0 <= i < count - 1
        ensures after[i].key != after[count - 1].key
      {
        assert after[i] == before[i];
      }
    }
  }

  /** Whatever is restored is the snapshot of a summary: some capacity, no more keys than it
      holds, no key twice, and no error above its count. */
  lemma {:induction false} RestoredIsSound(hash: seq<Byte> -> U64, bytes: seq<Byte>)
    requires ParseSaved(hash, bytes).Ok?
    ensures var s := ParseSaved(hash, bytes).value;
      && 0 < s.capacity && |s.items| <= s.capacity && Distinct(s.items)
      && (forall i :: 0 <= i < |s.items| ==> s.items[i].entry.error <= s.items[i].entry.count)
      && SnapshotCodec.Parse(hash, bytes).Ok?
      && SnapshotCodec.Parse(hash, bytes).value.header.algorithmId == 4
      && SnapshotCodec.Parse(hash, bytes).value.header.hash == s.hashSpec
  {
    hide Parse, LpAt, Number, CountFits, ItemsAt;
    var snapshot := SnapshotCodec.Parse(hash, bytes).value;
    ItemsAreSound(snapshot.payload, 20, ParseFront(snapshot).value.count);
  }

  /** Where the fields of the payload lie: total weight, updates and number of keys, and then
      key, count and error of one key after the other. */
  lemma {:induction false} PayloadLayout(s: Saved)
    ensures var b := Payload(s);
      && |b| == 20 + |ItemsBytes(s.items)| && b[..8] == Le(s.totalWeight, 8) && b[8..16] == Le(s.updates, 8)
      && b[16..20] == Le(|s.items|, 4) && b[20..] == ItemsBytes(s.items)
    ensures s.items != [] ==>
      var c := s.items[|s.items| - 1];
      ItemsBytes(s.items) == ItemsBytes(s.items[..|s.items| - 1])
        + (Le(|c.key|, 4) + c.key + Le(c.entry.count, 8) + Le(c.entry.error, 8))
  {
    hide Le, ItemsBytes;
    var b := Payload(s);
    assert b == Le(s.totalWeight, 8) + Le(s.updates, 8) + Le(|s.items|, 4) + ItemsBytes(s.items);
    if s.items != [] {
      assert s.items[..|s.items|] == s.items;
      NextItemBytes(s.items, |s.items| - 1);
    }
  }

  /** `summary` is what the parsed snapshot describes. */
  ghost predicate Restores(saved: Saved, digests: HashSpec -> Key -> nat, summary: SpaceSaving)
    reads summary
  {
    && summary.Valid() && Distinct(saved.items)
    && summary.capacity == saved.capacity && summary.hashSpec == saved.hashSpec
    && summary.digestOf == digests(saved.hashSpec)
    && summary.totalWeight == saved.totalWeight && summary.updates == saved.updates
    && summary.Tracks() == MapOf(saved.items)
  }

  method FromSnapshot(hash: seq<Byte> -> U64, digests: HashSpec -> Key -> nat, bytes: seq<Byte>)
    returns (r: Result<SpaceSaving>)
    ensures match ParseSaved(hash, bytes)
      case Err(e) => r == Err(e)
      case Ok(saved) => r.Ok? && fresh(r.value) && Restores(saved, digests, r.value)
  {
    hide Parse, ParsePayload, Restores;
    var snapshot :- ReadSnapshot(hash, bytes);
    if snapshot.header.algorithmId != SPACE_SAVING {
      return Err(WrongAlgorithm);
    }
    r := RestorePayload(digests, snapshot);
  }

  method ReadFront(snapshot: Snapshot, reader: Reader) returns (r: Result<Front>)
    requires reader.Valid() && reader.buf == snapshot.payload && reader.pos == 0
    modifies reader
    ensures reader.Valid() && r == ParseFront(snapshot)
    ensures r.Ok? ==> reader.pos == 20 && r.value.count <= r.value.capacity && 0 < r.value.capacity
  {
    hide FromLe, LpAt, Slice, Number, CountFits;
    var p := new Reader(snapshot.params);
    var capacity :- p.TakeNumber(8);
    if capacity == 0 {
      return Err(BadCapacity);
    }
    var totalWeight :- reader.TakeNumber(8);
    var updates :- reader.TakeNumber(8);
    var n :- reader.TakeNumber(4);
    if n > capacity {
      return Err(TooManySlots);
    }
    var fits := reader.CheckCount(n, SMALLEST_ITEM);
    if !fits {
      return Err(BadCount);
    }
    r := Ok(Front(capacity, totalWeight, updates, n));
  }

  method RestorePayload(digests: HashSpec -> Key -> nat, snapshot: Snapshot) returns (r: Result<SpaceSaving>)
    ensures match ParsePayload(snapshot)
      case Err(e) => r == Err(e)
      case Ok(saved) => r.Ok? && fresh(r.value) && Restores(saved, digests, r.value)
  {
    hide ParseFront, ItemsAt, Restores;
    var reader := new Reader(snapshot.payload);
    var front :- ReadFront(snapshot, reader);
    r := RestoreSummary(digests, snapshot.header.hash, front, reader);
  }

  method RestoreSummary(digests: HashSpec -> Key -> nat, hashSpec: HashSpec, front: Front, reader: Reader)
    returns (r: Result<SpaceSaving>)
    requires reader.Valid() && 0 < front.capacity && front.count <= front.capacity
    modifies reader
    ensures match ItemsAt(reader.buf, old(reader.pos), front.count)
      case Err(e) => r == Err(e)
      case Ok(parsed) =>
        r.Ok? && fresh(r.value)
        && Restores(Saved(front.capacity, hashSpec, front.totalWeight, front.updates, parsed.items), digests, r.value)
  {
    hide MapOf, ItemsAt;
    var summary := new SpaceSaving(front.capacity, hashSpec, digests(hashSpec));
    summary.totalWeight, summary.updates := front.totalWeight, front.updates;
    NothingListed();
    var _ :- RestoreItems(reader, summary, front.count);
    r := Ok(summary);
  }

  method RestoreItems(reader: Reader, summary: SpaceSaving, n: nat) returns (r: Result<bool>)
    requires reader.Valid() && Holds(summary, []) && n <= summary.capacity
    modifies reader, summary`slots, summary`keyIndex, summary`minHeap
    ensures match ItemsAt(reader.buf, old(reader.pos), n)
      case Err(e) => r == Err(e)
      case Ok(parsed) => r.Ok? && Holds(summary, parsed.items)
  {
    hide ItemAfter, Holds;
    ghost var start, parsed := reader.pos, Parsed([], reader.pos);
    for i := 0 to n
      invariant reader.Valid() && parsed.next == reader.pos
      invariant ItemsAt(reader.buf, start, i) == Ok(parsed) && |parsed.items| == i
      invariant Holds(summary, parsed.items)
    {
      LaterError(reader.buf, start, i, n);
      OneMoreItem(reader.buf, parsed);
      var done := RestoreItem(reader, summary, parsed);
      var _ :- done;
      parsed := ItemAfter(reader.buf, parsed).value;
    }
    r := Ok(true);
  }

  lemma {:induction false} OneMoreItem(payload: seq<Byte>, before: Parsed)
    ensures ItemAfter(payload, before).Ok? ==> |ItemAfter(payload, before).value.items| == |before.items| + 1
  {
  }

  /** The summary tracks exactly these items. */
  ghost predicate Holds(summary: SpaceSaving, items: seq<Candidate>)
    reads summary
  {
    summary.Valid() && Distinct(items) && summary.Tracks() == MapOf(items)
  }

  lemma {:induction false} NothingListed()
    ensures Distinct([]) && MapOf([]) == map[]
  {
  }

  /** The first item that fails decides the error of the whole list. */
  lemma {:induction false} LaterError(payload: seq<Byte>, pos: nat, i: nat, count: nat)
    requires i < count
    ensures ItemsAt(payload, pos, i + 1).Err? ==> ItemsAt(payload, pos, count) == Err(ItemsAt(payload, pos, i + 1).error)
    decreases count
  {
    hide ItemAfter;
    if i + 1 < count {
      LaterError(payload, pos, i, count - 1);
    }
  }

  method RestoreItem(reader: Reader, summary: SpaceSaving, ghost before: Parsed)
    returns (r: Result<bool>)
    requires reader.Valid() && before.next == reader.pos
    requires Holds(summary, before.items) && |before.items| < summary.capacity
    modifies reader, summary`slots, summary`keyIndex, summary`minHeap
    ensures reader.Valid()
    ensures match ItemAfter(reader.buf, before)
      case Err(e) => r == Err(e)
      case Ok(after) => r.Ok? && reader.pos == after.next && Holds(summary, after.items)
  {
    hide FromLe, LpAt, Number, MapOf;
    var key :- reader.LpBytes();
    var count :- reader.TakeNumber(8);
    var error :- reader.TakeNumber(8);
    if error > count {
      return Err(ErrorAboveCount);
    }
    var digest := summary.digestOf(key);
    ListsMap(before.items, key);
    SlotsHeld(summary, before.items);
    var found := summary.HasKey(key, digest);
    if found {
      return Err(DuplicateKey);
    }
    summary.InsertEntry(key, digest, count, error);
    MapSnoc(before.items, Candidate(key, Entry(count, error)));
    r := Ok(true);
  }

  lemma {:induction false} ListsMap(s: seq<Candidate>, key: Key)
    requires Distinct(s)
    ensures Lists(s, key) <==> key in MapOf(s)
  {
  }

  lemma {:induction false} SlotsHeld(summary: SpaceSaving, items: seq<Candidate>)
    requires Holds(summary, items)
    ensures |summary.slots| == |items|
  {
    MapSize(items);
    ContentsSize(summary.slots);
  }

  // --- the round trip ---

  /** Every field fits its width, and the items could have come from a summary. */
  ghost predicate SavedFits(s: Saved) {
    && 0 < s.capacity < 0x1_0000_0000_0000_0000 && |s.items| <= s.capacity && |s.items| < U32_LIMIT
    && s.totalWeight < 0x1_0000_0000_0000_0000 && s.updates < 0x1_0000_0000_0000_0000
    && s.hashSpec.seed < 0x1_0000_0000_0000_0000 && s.hashSpec.version < 0x1_0000
    && |Payload(s)| < U32_LIMIT && Distinct(s.items)
    && forall i :: 0 <= i < |s.items| ==> ItemFits(s.items[i])
  }

  ghost predicate ItemFits(c: Candidate) {
    |c.key| < U32_LIMIT && c.entry.error <= c.entry.count < 0x1_0000_0000_0000_0000
  }

  lemma {:induction false} ItemParses(before: seq<Byte>, parsed: Parsed, c: Candidate, after: seq<Byte>)
    requires ItemFits(c) && parsed.next == |before| && !Lists(parsed.items, c.key)
    ensures ItemAfter(before + ItemBytes(c) + after, parsed) == Ok(Parsed(parsed.items + [c], |before + ItemBytes(c)|))
  {
    hide Lp, LpAt, Number, Le, Pow256, Lists;
    var k, n, e := Lp(c.key), Le(c.entry.count, 8), Le(c.entry.error, 8);
    var body := before + ItemBytes(c) + after;
    Widths();
    LpLength(c.key);
    assert body == before + k + (n + e + after);
    LpMiddle(before, c.key, n + e + after);
    assert body == (before + k) + n + (e + after);
    NumberMiddle(before + k, c.entry.count, 8, e + after);
    assert body == (before + k + n) + e + after;
    NumberMiddle(before + k + n, c.entry.error, 8, after);
  }

  lemma {:induction false} LpLength(s: seq<Byte>)
    ensures |Lp(s)| == 4 + |s|
  {
  }

  lemma {:induction false} ItemsParse(before: seq<Byte>, items: seq<Candidate>, after: seq<Byte>)
    requires Distinct(items) && forall i :: 0 <= i < |items| ==> ItemFits(items[i])
    ensures ItemsAt(before + ItemsBytes(items) + after, |before|, |items|)
         == Ok(Parsed(items, |before + ItemsBytes(items)|))
    decreases |items|
  {
    hide ItemAfter, ItemFits, ItemBytes;
    if items == [] {
      assert before + [] == before;
    } else {
      var init, last := items[..|items| - 1], items[|items| - 1];
      assert items == init + [last];
      ItemsParse(before, init, ItemBytes(last) + after);
      assert before + ItemsBytes(items) + after == before + ItemsBytes(init) + (ItemBytes(last) + after);
      ItemParses(before + ItemsBytes(init), Parsed(init, |before + ItemsBytes(init)|), last, after);
      assert before + ItemsBytes(items) + after == (before + ItemsBytes(init)) + ItemBytes(last) + after;
      assert before + ItemsBytes(items) == before + ItemsBytes(init) + ItemBytes(last);
    }
  }

  lemma {:induction false} ItemsAreLong(items: seq<Candidate>)
    ensures SMALLEST_ITEM * |items| <= |ItemsBytes(items)|
  {
    hide Le;
    if items != [] {
      ItemsAreLong(items[..|items| - 1]);
      LpLength(items[|items| - 1].key);
    }
  }

  lemma {:induction false} CountFitsLong(remaining: nat, count: nat)
    requires SMALLEST_ITEM * count <= remaining
    ensures CountFits(remaining, count, SMALLEST_ITEM)
  {
  }

  lemma {:induction false} FrontParses(s: Saved, rest: seq<Byte>)
    requires SavedFits(s)
    ensures var front := PayloadFront(s.totalWeight, s.updates, |s.items|);
      && |front| == 20 && Number(front + rest, 0, 8) == Ok(s.totalWeight)
      && Number(front + rest, 8, 8) == Ok(s.updates) && Number(front + rest, 16, 4) == Ok(|s.items|)
  {
    hide Le, Number, Pow256, ItemFits, Payload;
    var t, u, n := Le(s.totalWeight, 8), Le(s.updates, 8), Le(|s.items|, 4);
    Widths();
    assert t + u + n + rest == [] + t + (u + n + rest);
    NumberMiddle([], s.totalWeight, 8, u + n + rest);
    assert t + u + n + rest == t + u + (n + rest);
    NumberMiddle(t, s.updates, 8, n + rest);
    NumberMiddle(t + u, |s.items|, 4, rest);
  }

  lemma {:induction false} PayloadParses(s: Saved, windowStart: nat, windowEnd: nat)
    requires SavedFits(s)
    ensures ParsePayload(SnapshotOf(s, windowStart, windowEnd)) == Ok(s)
  {
    hide Le, Number, ItemFits, ItemsAt, ItemsBytes, PayloadFront, CountFits, Pow256;
    var front := PayloadFront(s.totalWeight, s.updates, |s.items|);
    FrontParses(s, ItemsBytes(s.items));
    ItemsParse(front, s.items, []);
    assert front + ItemsBytes(s.items) + [] == Payload(s);
    ItemsAreLong(s.items);
    CountFitsLong(|ItemsBytes(s.items)|, |s.items|);
    Widths();
    NumberMiddle([], s.capacity, 8, []);
    assert [] + Le(s.capacity, 8) + [] == Le(s.capacity, 8);
  }

  /** A summary restored from its own snapshot tracks the same keys with the same counts
      and errors, and has the same configuration and totals. */
  lemma {:induction false} RestoreUndoesSave(hash: seq<Byte> -> U64, s: Saved, windowStart: nat, windowEnd: nat)
    requires SavedFits(s) && windowStart < 0x1_0000_0000_0000_0000 && windowEnd < 0x1_0000_0000_0000_0000
    ensures ParseSaved(hash, Encoded(hash, s, windowStart, windowEnd)) == Ok(s)
  {
    hide Parse, Body, Sealed, Le, ParsePayload, Payload;
    var snapshot := SnapshotOf(s, windowStart, windowEnd);
    ReadUndoesWrite(hash, snapshot);
    PayloadParses(s, windowStart, windowEnd);
  }
}
