/** What a consumer sees of drained windows once windows with equal bounds are
    merged and windows without events are dropped. */
module Reports {
  import opened WindowRing
  import opened WindowMeaning
  import opened Arithmetic

  type Bounds = (nat, nat)

  /** Everything the drained windows hold under one pair of bounds. */
  function EventsAt(windows: seq<Window>, key: Bounds): multiset<FlowEvent> {
    if windows == [] then multiset{}
    else
      var w := windows[|windows| - 1];
      EventsAt(windows[..|windows| - 1], key)
      + (if (w.start, w.end) == key then w.events else multiset{})
  }

  ghost function BoundsOf(windows: seq<Window>): set<Bounds> {
    set w | w in windows :: (w.start, w.end)
  }

  ghost predicate Merged(windows: seq<Window>, merged: map<Bounds, multiset<FlowEvent>>) {
    && merged.Keys == BoundsOf(windows)
    && forall key: Bounds :: EventsAt(windows, key) == if key in merged then merged[key] else multiset{}
  }

  lemma {:induction false} BoundsSnoc(windows: seq<Window>, w: Window)
    ensures BoundsOf(windows + [w]) == BoundsOf(windows) + {(w.start, w.end)}
    ensures forall key: Bounds ::
      EventsAt(windows + [w], key) == EventsAt(windows, key) + (if (w.start, w.end) == key then w.events else multiset{})
  {
    assert (windows + [w])[..|windows|] == windows;
  }

  lemma {:induction false} MergedSnoc(windows: seq<Window>, w: Window, before: map<Bounds, multiset<FlowEvent>>)
    requires Merged(windows, before)
    ensures var key := (w.start, w.end);
      && (key in before ==> Merged(windows + [w], before[key := before[key] + w.events]))
      && (key !in before ==> Merged(windows + [w], before[key := w.events]))
  {
    hide BoundsOf, EventsAt;
    BoundsSnoc(windows, w);
    var at := (w.start, w.end);
    var held := if at in before then before[at] else multiset{};
    var after := before[at := held + w.events];
    assert after.Keys == before.Keys + {at};
    assert held + w.events == if at in before then before[at] + w.events else w.events;
  }

  /** The merge loop over drained windows: one state per pair of bounds, holding
      everything the windows with those bounds hold. */
  method MergeWindows(before: map<Bounds, multiset<FlowEvent>>, windows: seq<Window>, ghost earlier: seq<Window>)
    returns (merged: map<Bounds, multiset<FlowEvent>>)
    requires Merged(earlier, before)
    ensures Merged(earlier + windows, merged)
  {
    hide Merged;
    merged := before;
    assert earlier + windows[..0] == earlier;
    for i := 0 to |windows|
      invariant Merged(earlier + windows[..i], merged)
    {
      var w := windows[i];
      var key := (w.start, w.end);
      MergedSnoc(earlier + windows[..i], w, merged);
      assert earlier + windows[..i + 1] == earlier + windows[..i] + [w];
      if key in merged {
        merged := merged[key := merged[key] + w.events];
      } else {
        merged := merged[key := w.events];
      }
    }
    assert windows[..|windows|] == windows;
  }

  method MergeByBounds(windows: seq<Window>) returns (merged: map<Bounds, multiset<FlowEvent>>)
    ensures merged.Keys == BoundsOf(windows)
    ensures forall key: Bounds :: EventsAt(windows, key) == if key in merged then merged[key] else multiset{}
  {
    NothingMerged();
    merged := MergeWindows(map[], windows, []);
    assert [] + windows == windows;
  }

  lemma {:induction false} NothingMerged()
    ensures Merged([], map[])
  {
  }

  /** Two drains report the same: equal merged content under every bounds. */
  ghost predicate SameReport(a: seq<Window>, b: seq<Window>) {
    forall key: Bounds :: EventsAt(a, key) == EventsAt(b, key)
  }

  lemma {:induction false} EventsAtConcat(a: seq<Window>, b: seq<Window>, key: Bounds)
    ensures EventsAt(a + b, key) == EventsAt(a, key) + EventsAt(b, key)
  {
    if b == [] {
      assert a + b == a;
    } else {
      assert (a + b)[..|a + b| - 1] == a + b[..|b| - 1];
      EventsAtConcat(a, b[..|b| - 1], key);
    }
  }

  lemma {:induction false} EventsAtNonEmpty(a: seq<Window>, key: Bounds)
    ensures EventsAt(NonEmpty(a), key) == EventsAt(a, key)
  {
    if a != [] {
      EventsAtNonEmpty(a[..|a| - 1], key);
      var w := a[|a| - 1];
      EventsAtConcat(NonEmpty(a[..|a| - 1]), if w.events == multiset{} then [] else [w], key);
      assert [w][..0] == [];
    }
  }

  /** The window of a query opened at `first` that has these bounds. */
  ghost predicate OnGrid(c: Config, first: nat, lo: nat, hi: nat, key: Bounds)
    requires c.Valid()
  {
    lo < key.1 <= hi && Aligned(c, key.1) && key.0 == WindowStart(c, first, key.1)
  }

  /** The windows hold exactly what `log` puts on the grid between two stands. */
  ghost predicate ReportsLog(c: Config, first: nat, lo: nat, hi: nat, windows: seq<Window>, log: seq<Arrival>)
    requires c.Valid()
  {
    forall key: Bounds ::
      EventsAt(windows, key) == if OnGrid(c, first, lo, hi, key) then Covered(log, key.0, key.1) else multiset{}
  }

  lemma {:induction false} EventsAtUpTo(c: Config, first: nat, log: seq<Arrival>, back: nat, key: Bounds)
    requires c.Valid() && Aligned(c, first) && Aligned(c, back) && first <= back
    ensures EventsAt(WindowsUpTo(c, first, log, back), key)
         == if OnGrid(c, first, first, back, key) then Covered(log, key.0, key.1) else multiset{}
    decreases back
  {
    hide Covered, WindowStart, Aligned;
    if first < back {
      GridStep(c, first, back, key);
      EventsAtUpTo(c, first, log, back - c.slide, key);
      var start := WindowStart(c, first, back);
      var w := Window(start, back, Covered(log, start, back));
      EventsAtConcat(WindowsUpTo(c, first, log, back - c.slide), [w], key);
      EventsAtOne(w, key);
    }
  }

  lemma {:induction false} EventsAtOne(w: Window, key: Bounds)
    ensures EventsAt([w], key) == if (w.start, w.end) == key then w.events else multiset{}
  {
    assert [w][..0] == [];
  }

  /** One slide back there is one aligned end fewer. */
  lemma {:induction false} GridStep(c: Config, first: nat, back: nat, key: Bounds)
    requires c.Valid() && Aligned(c, first) && Aligned(c, back) && first < back
    ensures first + c.slide <= back && Aligned(c, back - c.slide)
    ensures OnGrid(c, first, first, back, key)
       <==> OnGrid(c, first, first, back - c.slide, key) || key == (WindowStart(c, first, back), back)
    ensures !OnGrid(c, first, first, back - c.slide, (WindowStart(c, first, back), back))
  {
    hide WindowStart;
    AlignedGap(first, back, c.slide);
    AlignedBack(back, c.slide);
    if key.1 < back && Aligned(c, key.1) {
      AlignedGap(key.1, back, c.slide);
    }
  }

  lemma {:induction false} AlignedBack(a: nat, s: nat)
    requires 0 < s <= a && a % s == 0
    ensures (a - s) % s == 0
  {
    DivMod(a, s);
    if a / s == 0 {
      assert false;
    }
    MulSucc(a / s - 1, s);
    MultipleMod(a / s - 1, s);
  }
}
