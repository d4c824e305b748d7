/** Count-Min tables as values: row-major cells, plain and conservative updates, and
    the guarantees that survive any tree of updates and merges. */
module CountMinSpec {
  import opened Arithmetic
  import opened KeyOrder
  import opened Streams
  import opened Sums

  /** `depth` rows of `width` columns; `mix` hashes a row and a key. */
  datatype Params = Params(width: nat, depth: nat, mix: (nat, Key) -> nat)

  type Shape = p: Params | 0 < p.width && 0 < p.depth witness Params(1, 1, (row: nat, key: Key) => 0)

  type Table = seq<nat>

  function Cells(p: Shape): nat {
    p.depth * p.width
  }

  /** The column of `key` in `row`. */
  function Column(p: Shape, row: nat, key: Key): nat {
    p.mix(row, key) % p.width
  }

  function Slot(p: Shape, row: nat, key: Key): nat {
    row * p.width + Column(p, row, key)
  }

  /** The row that cell `i` belongs to. */
  function RowOf(p: Shape, i: nat): nat {
    i / p.width
  }

  /** Cell `i` is one of the key's cells. */
  predicate Hit(p: Shape, i: nat, key: Key) {
    i % p.width == Column(p, RowOf(p, i), key)
  }

  /** Each row has exactly one cell of the key, and it lies inside the table. */
  lemma {:induction false} SlotIsTheHit(p: Shape, row: nat, key: Key)
    ensures Slot(p, row, key) == row * p.width + p.mix(row, key) % p.width
    ensures RowOf(p, Slot(p, row, key)) == row && Hit(p, Slot(p, row, key), key)
    ensures row < p.depth ==> Slot(p, row, key) < Cells(p)
    ensures forall i: nat :: RowOf(p, i) == row && Hit(p, i, key) ==> i == Slot(p, row, key)
  {
    DivModUnique(row, Column(p, row, key), p.width);
    if row < p.depth {
      MulStrict(row, p.depth, p.width);
    }
    forall i: nat | RowOf(p, i) == row && Hit(p, i, key)
      ensures i == Slot(p, row, key)
    {
      DivMod(i, p.width);
    }
  }

  lemma {:induction false} CellRow(p: Shape, i: nat)
    requires i < Cells(p)
    ensures RowOf(p, i) < p.depth
  {
    DivMod(i, p.width);
    if p.depth <= RowOf(p, i) {
      MulMonotone(p.depth, RowOf(p, i), p.width);
      assert false;
    }
  }

  /** The point estimate is the least of the key's cells. */
  ghost predicate IsEstimate(p: Shape, t: Table, key: Key, e: nat) {
    && (exists i: nat :: i < |t| && Hit(p, i, key) && t[i] == e)
    && forall i: nat :: i < |t| && Hit(p, i, key) ==> e <= t[i]
  }

  ghost function Plain(p: Shape, t: Table, key: Key, weight: nat): Table {
    seq(|t|, (i: nat) requires i < |t| => if Hit(p, i, key) then t[i] + weight else t[i])
  }

  ghost function Raised(p: Shape, t: Table, key: Key, target: nat): Table {
    seq(|t|, (i: nat) requires i < |t| => if Hit(p, i, key) && t[i] < target then target else t[i])
  }

  ghost function Joined(a: Table, b: Table): Table
    requires |a| == |b|
  {
    seq(|a|, (i: nat) requires i < |a| => a[i] + b[i])
  }

  function Zero(p: Shape): Table {
    seq(Cells(p), _ => 0)
  }

  lemma {:induction false} EstimateUnique(p: Shape, t: Table, key: Key, d: nat, e: nat)
    requires IsEstimate(p, t, key, d) && IsEstimate(p, t, key, e)
    ensures d == e
  {
  }

  lemma {:induction false} EstimateExists(p: Shape, t: Table, key: Key, rows: nat) returns (e: nat)
    requires |t| == Cells(p) && 0 < rows <= p.depth
    ensures exists i: nat :: i < |t| && Hit(p, i, key) && t[i] == e
    ensures forall i: nat :: i < |t| && RowOf(p, i) < rows && Hit(p, i, key) ==> e <= t[i]
    ensures rows == p.depth ==> IsEstimate(p, t, key, e)
    decreases rows
  {
    hide Hit, Cells, Slot, RowOf;
    SlotIsTheHit(p, rows - 1, key);
    e := t[Slot(p, rows - 1, key)];
    if rows > 1 {
      var d := EstimateExists(p, t, key, rows - 1);
      e := if d < e then d else e;
    }
    forall i: nat | i < |t|
      ensures RowOf(p, i) < p.depth
    {
      CellRow(p, i);
    }
  }

  lemma {:induction false} HasEstimate(p: Shape, t: Table, key: Key)
    requires |t| == Cells(p)
    ensures exists e: nat :: IsEstimate(p, t, key, e)
  {
    var e := EstimateExists(p, t, key, p.depth);
  }

  ghost function Estimate(p: Shape, t: Table, key: Key): (e: nat)
    requires |t| == Cells(p)
    ensures IsEstimate(p, t, key, e)
  {
    HasEstimate(p, t, key);
    var e: nat :| IsEstimate(p, t, key, e);
    e
  }

  /** Conservative: raise the key's cells only up to the new estimate. */
  ghost function Conservative(p: Shape, t: Table, key: Key, weight: nat): Table
    requires |t| == Cells(p)
  {
    Raised(p, t, key, Estimate(p, t, key) + weight)
  }

  /** What a conservative update does, from the estimate `e` before it: no cell falls, none
      rises past `e + weight`, other keys' cells stay, and the key's estimate becomes exactly
      `e + weight`. */
  lemma {:induction false} ConservativeRaises(p: Shape, t: Table, key: Key, weight: nat, e: nat)
    requires |t| == Cells(p) && IsEstimate(p, t, key, e)
    ensures var after := Conservative(p, t, key, weight);
      && |after| == |t| && IsEstimate(p, after, key, e + weight)
      && (forall i: nat :: i < |t| ==> t[i] <= after[i] <= Larger(t[i], e + weight))
      && (forall i: nat :: i < |t| && !Hit(p, i, key) ==> after[i] == t[i])
  {
    hide Hit, Cells;
    EstimateUnique(p, t, key, e, Estimate(p, t, key));
    var i: nat :| i < |t| && Hit(p, i, key) && t[i] == e;
    assert Conservative(p, t, key, weight)[i] == e + weight;
  }

  function Larger(a: nat, b: nat): nat {
    if a < b then b else a
  }

  /** No table does with less: the conservative one is the smallest that does not fall and
      estimates the key at no less than `e + weight`. */
  lemma {:induction false} ConservativeIsLeast(p: Shape, t: Table, key: Key, weight: nat, e: nat, other: Table, d: nat)
    requires |t| == Cells(p) == |other| && IsEstimate(p, t, key, e)
    requires forall i: nat :: i < |t| ==> t[i] <= other[i]
    requires IsEstimate(p, other, key, d) && e + weight <= d
    ensures forall i: nat :: i < |t| ==> Conservative(p, t, key, weight)[i] <= other[i]
  {
    hide Hit, Cells;
    EstimateUnique(p, t, key, e, Estimate(p, t, key));
  }

  // --- any tree of updates and merges ---

  ghost function PlainTable(p: Shape, h: History): (t: Table)
    ensures |t| == Cells(p)
  {
    match h
    case Fresh => Zero(p)
    case Updated(before, key, weight) => Plain(p, PlainTable(p, before), key, weight)
    case Merged(left, right) => Joined(PlainTable(p, left), PlainTable(p, right))
  }

  ghost function ConservativeTable(p: Shape, h: History): (t: Table)
    ensures |t| == Cells(p)
  {
    match h
    case Fresh => Zero(p)
    case Updated(before, key, weight) => Conservative(p, ConservativeTable(p, before), key, weight)
    case Merged(left, right) => Joined(ConservativeTable(p, left), ConservativeTable(p, right))
  }

  ghost function Seen(h: History): set<Key> {
    match h
    case Fresh => {}
    case Updated(before, key, _) => Seen(before) + {key}
    case Merged(left, right) => Seen(left) + Seen(right)
  }

  /** The weight a key contributes to cell `i`. */
  ghost function Share(p: Shape, h: History, i: nat): Key -> int {
    (k: Key) => if Hit(p, i, k) then Truth(h, k) else 0
  }

  lemma {:induction false} UnseenWeighsNothing(h: History, key: Key)
    requires key !in Seen(h)
    ensures Truth(h, key) == 0
  {
    match h
    case Fresh =>
    case Updated(before, _, _) => UnseenWeighsNothing(before, key);
    case Merged(left, right) =>
      UnseenWeighsNothing(left, key);
      UnseenWeighsNothing(right, key);
  }

  lemma {:induction false} ShareOver(p: Shape, h: History, i: nat, keys: set<Key>)
    requires Seen(h) <= keys
    ensures Sum(keys, Share(p, h, i)) == Sum(Seen(h), Share(p, h, i))
  {
    hide Sum, Truth, Seen, Hit;
    var extra := keys - Seen(h);
    forall k | k in extra
      ensures Share(p, h, i)(k) == 0
    {
      UnseenWeighsNothing(h, k);
    }
    SumUnion(Seen(h), extra, Share(p, h, i));
    SumZero(extra, Share(p, h, i));
    assert Seen(h) + extra == keys;
  }

  /** One more update adds its weight to the keys' shares of the cells it hits. */
  lemma {:induction false} ShareGrows(p: Shape, before: History, key: Key, weight: nat, i: nat)
    ensures var h := Updated(before, key, weight);
      Sum(Seen(h), Share(p, h, i)) == Sum(Seen(before), Share(p, before, i)) + (if Hit(p, i, key) then weight else 0)
  {
    hide Sum, Hit;
    var h := Updated(before, key, weight);
    var rest := Seen(h) - {key};
    ShareOver(p, before, i, Seen(h));
    SumRemove(Seen(h), Share(p, h, i), key);
    SumRemove(Seen(h), Share(p, before, i), key);
    SumSame(rest, Share(p, h, i), Share(p, before, i));
  }

  lemma {:induction false} ShareAdds(p: Shape, left: History, right: History, i: nat)
    ensures var h := Merged(left, right);
      Sum(Seen(h), Share(p, h, i)) == Sum(Seen(left), Share(p, left, i)) + Sum(Seen(right), Share(p, right, i))
  {
    hide Sum, Hit;
    var h := Merged(left, right);
    ShareOver(p, left, i, Seen(h));
    ShareOver(p, right, i, Seen(h));
    SumAdd(Seen(h), Share(p, left, i), Share(p, right, i), Share(p, h, i));
  }

  /** A plain cell is exactly the weight of the keys hashed to it. */
  lemma {:induction false} PlainCellIsExact(p: Shape, h: History, i: nat)
    requires i < Cells(p)
    ensures PlainTable(p, h)[i] == Sum(Seen(h), Share(p, h, i))
    decreases h
  {
    hide Sum, Share, Seen, Hit, Cells;
    match h
    case Fresh => NothingSeen(p, i);
    case Updated(before, key, weight) =>
      PlainCellIsExact(p, before, i);
      ShareGrows(p, before, key, weight, i);
    case Merged(left, right) =>
      PlainCellIsExact(p, left, i);
      PlainCellIsExact(p, right, i);
      ShareAdds(p, left, right, i);
  }

  lemma {:induction false} NothingSeen(p: Shape, i: nat)
    ensures Sum(Seen(Fresh), Share(p, Fresh, i)) == 0
  {
  }

  /** Merging plain sketches is linear: two trees that saw the same total weight of every
      key leave the same table. */
  lemma {:induction false} SameStreamSameTable(p: Shape, g: History, h: History)
    requires forall k :: Truth(g, k) == Truth(h, k)
    ensures PlainTable(p, g) == PlainTable(p, h)
  {
    hide Sum, Truth, Seen, Hit, PlainTable;
    forall i: nat | i < Cells(p)
      ensures PlainTable(p, g)[i] == PlainTable(p, h)[i]
    {
      var keys := Seen(g) + Seen(h);
      PlainCellIsExact(p, g, i);
      PlainCellIsExact(p, h, i);
      ShareOver(p, g, i, keys);
      ShareOver(p, h, i, keys);
      SumSame(keys, Share(p, g, i), Share(p, h, i));
    }
    SameCells(PlainTable(p, g), PlainTable(p, h));
  }

  lemma {:induction false} SameCells(a: Table, b: Table)
    requires |a| == |b| && forall i: nat :: i < |a| ==> a[i] == b[i]
    ensures a == b
  {
  }

  // --- row totals ---

  /** The sum of the first `n` cells of a row. */
  ghost function RowSum(p: Shape, t: Table, row: nat, n: nat): nat
    requires row < p.depth && n <= p.width && |t| == Cells(p)
  {
    if n == 0 then 0
    else
      InRow(p, row, n - 1);
      RowSum(p, t, row, n - 1) + t[row * p.width + (n - 1)]
  }

  lemma {:induction false} InRow(p: Shape, row: nat, c: nat)
    requires row < p.depth && c < p.width
    ensures row * p.width + c < Cells(p)
    ensures RowOf(p, row * p.width + c) == row && (row * p.width + c) % p.width == c
  {
    MulStrict(row, p.depth, p.width);
    DivModUnique(row, c, p.width);
  }

  lemma {:induction false} RowSumPlain(p: Shape, t: Table, key: Key, weight: nat, row: nat, n: nat)
    requires row < p.depth && n <= p.width && |t| == Cells(p)
    ensures RowSum(p, Plain(p, t, key, weight), row, n)
         == RowSum(p, t, row, n) + (if Column(p, row, key) < n then weight else 0)
    decreases n
  {
    hide Column, Cells;
    if n > 0 {
      RowSumPlain(p, t, key, weight, row, n - 1);
      InRow(p, row, n - 1);
    }
  }

  lemma {:induction false} RowSumJoined(p: Shape, a: Table, b: Table, row: nat, n: nat)
    requires row < p.depth && n <= p.width && |a| == Cells(p) == |b|
    ensures RowSum(p, Joined(a, b), row, n) == RowSum(p, a, row, n) + RowSum(p, b, row, n)
    decreases n
  {
    hide Cells;
    if n > 0 {
      RowSumJoined(p, a, b, row, n - 1);
      InRow(p, row, n - 1);
    }
  }

  lemma {:induction false} RowSumZero(p: Shape, row: nat, n: nat)
    requires row < p.depth && n <= p.width
    ensures RowSum(p, Zero(p), row, n) == 0
    decreases n
  {
    hide Cells;
    if n > 0 {
      RowSumZero(p, row, n - 1);
      InRow(p, row, n - 1);
    }
  }

  /** Each row of a plain table holds the whole weight of the stream. */
  lemma {:induction false} PlainRowIsWhole(p: Shape, h: History, row: nat)
    requires row < p.depth
    ensures RowSum(p, PlainTable(p, h), row, p.width) == Weight(h)
    decreases h
  {
    hide RowSum, Cells;
    match h
    case Fresh => RowSumZero(p, row, p.width);
    case Updated(before, key, weight) =>
      PlainRowIsWhole(p, before, row);
      RowSumPlain(p, PlainTable(p, before), key, weight, row, p.width);
    case Merged(left, right) =>
      PlainRowIsWhole(p, left, row);
      PlainRowIsWhole(p, right, row);
      RowSumJoined(p, PlainTable(p, left), PlainTable(p, right), row, p.width);
  }

  // --- the sandwich ---

  ghost predicate AtMost(a: Table, b: Table) {
    |a| == |b| && forall i: nat :: i < |a| ==> a[i] <= b[i]
  }

  /** Every cell of a key holds at least the key's weight. */
  ghost predicate Covers(p: Shape, t: Table, truth: Key -> nat) {
    forall i: nat, k: Key :: i < |t| && Hit(p, i, k) ==> truth(k) <= t[i]
  }

  lemma {:induction false} RaiseBelowPlain(p: Shape, c: Table, t: Table, key: Key, weight: nat, e: nat)
    requires AtMost(c, t) && IsEstimate(p, c, key, e)
    ensures AtMost(Raised(p, c, key, e + weight), Plain(p, t, key, weight))
  {
    hide Hit;
  }

  lemma {:induction false} RaiseCovers(p: Shape, c: Table, key: Key, weight: nat, e: nat,
                                       truth: Key -> nat, after: Key -> nat)
    requires Covers(p, c, truth) && IsEstimate(p, c, key, e)
    requires forall k :: after(k) == truth(k) + (if k == key then weight else 0)
    ensures Covers(p, Raised(p, c, key, e + weight), after)
  {
    hide Hit;
    assert truth(key) <= e;
  }

  lemma {:induction false} JoinCovers(p: Shape, a: Table, b: Table, ta: Key -> nat, tb: Key -> nat, both: Key -> nat)
    requires |a| == |b| && Covers(p, a, ta) && Covers(p, b, tb) && forall k :: both(k) == ta(k) + tb(k)
    ensures Covers(p, Joined(a, b), both)
  {
    hide Hit;
  }

  lemma {:induction false} JoinAtMost(a: Table, b: Table, c: Table, d: Table)
    requires AtMost(a, c) && AtMost(b, d) && |a| == |b|
    ensures AtMost(Joined(a, b), Joined(c, d))
  {
  }

  lemma {:induction false} ZeroCovers(p: Shape)
    ensures AtMost(Zero(p), Zero(p)) && Covers(p, Zero(p), TruthOf(Fresh))
  {
  }

  /** A conservative table lies between the truth and the plain table. */
  lemma {:induction false} ConservativeBetween(p: Shape, h: History)
    ensures AtMost(ConservativeTable(p, h), PlainTable(p, h)) && Covers(p, ConservativeTable(p, h), TruthOf(h))
    decreases h
  {
    hide AtMost, Covers, Raised, Plain, IsEstimate, Cells, Joined, Estimate;
    match h
    case Fresh => ZeroCovers(p);
    case Updated(before, key, weight) =>
      var b := ConservativeTable(p, before);
      var e := Estimate(p, b, key);
      ConservativeBetween(p, before);
      RaiseBelowPlain(p, b, PlainTable(p, before), key, weight, e);
      RaiseCovers(p, b, key, weight, e, TruthOf(before), TruthOf(h));
    case Merged(left, right) =>
      var a, b := ConservativeTable(p, left), ConservativeTable(p, right);
      ConservativeBetween(p, left);
      ConservativeBetween(p, right);
      JoinAtMost(a, b, PlainTable(p, left), PlainTable(p, right));
      JoinCovers(p, a, b, TruthOf(left), TruthOf(right), TruthOf(h));
  }

  lemma {:induction false} PlainCellFits(p: Shape, h: History, i: nat)
    requires i < Cells(p)
    ensures PlainTable(p, h)[i] <= Weight(h)
    decreases h
  {
    hide Hit, Cells;
    match h
    case Fresh =>
    case Updated(before, _, _) => PlainCellFits(p, before, i);
    case Merged(left, right) =>
      PlainCellFits(p, left, i);
      PlainCellFits(p, right, i);
  }

  /** truth <= conservative estimate <= plain estimate <= total weight, for every key,
      every row hash and every tree of updates and merges. */
  lemma {:induction false} Sandwich(p: Shape, h: History, key: Key)
    ensures Truth(h, key) <= Estimate(p, ConservativeTable(p, h), key)
                          <= Estimate(p, PlainTable(p, h), key) <= Weight(h)
  {
    hide PlainTable, ConservativeTable, Hit, Cells, Estimate;
    ConservativeBetween(p, h);
    var t, c := PlainTable(p, h), ConservativeTable(p, h);
    assert IsEstimate(p, t, key, Estimate(p, t, key)) && IsEstimate(p, c, key, Estimate(p, c, key));
    var i: nat :| i < |t| && Hit(p, i, key) && t[i] == Estimate(p, t, key);
    PlainCellFits(p, h, i);
    var j: nat :| j < |c| && Hit(p, j, key) && c[j] == Estimate(p, c, key);
    assert TruthOf(h)(key) <= c[j];
  }
}

/** The sketch object over one flat array. */
module CountMinSketch {
  import opened CountMinSpec
  import opened HashSpecs
  import opened KeyOrder

  predicate SameDimensions(a: Shape, b: Shape) {
    a.width == b.width && a.depth == b.depth
  }

  class CountMin {
    const params: Shape
    const conservative: bool
    const hashSpec: HashSpec
    const table: array<nat>
    var totalWeight: nat
    var updates: nat

    ghost predicate Valid()
      reads this
    {
      table.Length == Cells(params)
    }

    constructor (params: Shape, conservative: bool, hashSpec: HashSpec)
      ensures Valid() && fresh(table) && table[..] == Zero(params) && totalWeight == 0 && updates == 0
      ensures this.params == params && this.conservative == conservative && this.hashSpec == hashSpec
    {
      this.params, this.conservative, this.hashSpec := params, conservative, hashSpec;
      table := new nat[Cells(params)](_ => 0);
      totalWeight, updates := 0, 0;
    }

    /** The least of the key's cells. */
    method EstimateU64(key: Key) returns (min: nat)
      requires Valid()
      ensures min == Estimate(params, table[..], key)
    {
      hide Hit, Slot, Cells, RowOf;
      SlotIsTheHit(params, 0, key);
      min := table[Slot(params, 0, key)];
      var row := 1;
      while row < params.depth
        invariant 0 < row <= params.depth
        invariant exists i: nat :: i < table.Length && Hit(params, i, key) && table[i] == min
        invariant forall i: nat :: i < table.Length && RowOf(params, i) < row && Hit(params, i, key) ==> min <= table[i]
      {
        SlotIsTheHit(params, row, key);
        var idx := Slot(params, row, key);
        if table[idx] < min {
          min := table[idx];
        }
        row := row + 1;
      }
      AllRowsSeen(params, table[..], key, min);
      EstimateUnique(params, table[..], key, min, Estimate(params, table[..], key));
    }

    method Update(key: Key, value: nat)
      requires Valid()
      modifies this, table
      ensures Valid() && totalWeight == old(totalWeight) + value && updates == old(updates) + 1
      ensures table[..] == if conservative then Conservative(params, old(table[..]), key, value)
                           else Plain(params, old(table[..]), key, value)
    {
      totalWeight, updates := totalWeight + value, updates + 1;
      if conservative {
        var min := EstimateU64(key);
        RaiseRows(key, min + value);
      } else {
        AddRows(key, value);
      }
    }

    method RaiseRows(key: Key, target: nat)
      requires Valid()
      modifies table
      ensures table[..] == Raised(params, old(table[..]), key, target)
    {
      hide Hit, Slot, Cells, RowOf;
      var row := 0;
      ghost var goal := Raised(params, table[..], key, target);
      while row < params.depth
        invariant 0 <= row <= params.depth
        invariant forall i: nat :: i < table.Length && RowOf(params, i) < row ==> table[i] == goal[i]
        invariant forall i: nat :: i < table.Length && row <= RowOf(params, i) ==> table[i] == old(table[i])
      {
        SlotIsTheHit(params, row, key);
        var idx := Slot(params, row, key);
        if table[idx] < target {
          table[idx] := target;
        }
        row := row + 1;
      }
      AllRowsDone(params, table[..], goal);
    }

    method AddRows(key: Key, value: nat)
      requires Valid()
      modifies table
      ensures table[..] == Plain(params, old(table[..]), key, value)
    {
      hide Hit, Slot, Cells, RowOf;
      var row := 0;
      ghost var goal := Plain(params, table[..], key, value);
      while row < params.depth
        invariant 0 <= row <= params.depth
        invariant forall i: nat :: i < table.Length && RowOf(params, i) < row ==> table[i] == goal[i]
        invariant forall i: nat :: i < table.Length && row <= RowOf(params, i) ==> table[i] == old(table[i])
      {
        SlotIsTheHit(params, row, key);
        var idx := Slot(params, row, key);
        table[idx] := table[idx] + value;
        row := row + 1;
      }
      AllRowsDone(params, table[..], goal);
    }

    /** Cell by cell addition of a sketch with the same parameters and hash. */
    method MergeFrom(other: CountMin) returns (ok: bool)
      requires Valid() && other.Valid() && other != this && other.table != table
      requires other.hashSpec == hashSpec ==> other.params.mix == params.mix
      modifies this, table
      ensures Valid()
      ensures ok <==> SameDimensions(params, other.params) && other.conservative == conservative && other.hashSpec == hashSpec
      ensures ok ==> table[..] == Joined(old(table[..]), other.table[..])
      ensures !ok ==> table[..] == old(table[..])
      ensures totalWeight == old(totalWeight) + (if ok then other.totalWeight else 0)
      ensures updates == old(updates) + (if ok then other.updates else 0)
    {
      ok := SameDimensions(params, other.params) && other.conservative == conservative && other.hashSpec == hashSpec;
      if ok {
        var i := 0;
        while i < table.Length
          invariant 0 <= i <= table.Length
          invariant forall j :: 0 <= j < i ==> table[j] == old(table[j]) + other.table[j]
          invariant forall j :: i <= j < table.Length ==> table[j] == old(table[j])
          invariant totalWeight == old(totalWeight) && updates == old(updates)
        {
          table[i] := table[i] + other.table[i];
          i := i + 1;
        }
        totalWeight, updates := totalWeight + other.totalWeight, updates + other.updates;
      }
    }
  }

  lemma {:induction false} AllRowsSeen(p: Shape, t: Table, key: Key, min: nat)
    requires |t| == Cells(p)
    requires exists i: nat :: i < |t| && Hit(p, i, key) && t[i] == min
    requires forall i: nat :: i < |t| && RowOf(p, i) < p.depth && Hit(p, i, key) ==> min <= t[i]
    ensures IsEstimate(p, t, key, min)
  {
    hide Hit, Cells, RowOf;
    forall i: nat | i < |t|
      ensures RowOf(p, i) < p.depth
    {
      CellRow(p, i);
    }
  }

  lemma {:induction false} AllRowsDone(p: Shape, t: Table, goal: Table)
    requires |t| == Cells(p) == |goal|
    requires forall i: nat :: i < |t| && RowOf(p, i) < p.depth ==> t[i] == goal[i]
    ensures t == goal
  {
    hide Cells, RowOf;
    forall i: nat | i < |t|
      ensures RowOf(p, i) < p.depth
    {
      CellRow(p, i);
    }
    SameCells(t, goal);
  }
}
