/** The sorted candidate list a merge trims: its prefix is the trim on maps. */
module RankedCandidates {
  import opened KeyOrder
  import opened SpaceSavingSpec

  datatype Candidate = Candidate(key: Key, entry: Entry)

  ghost predicate Distinct(s: seq<Candidate>) {
    forall i, j :: 0 <= i < j < |s| ==> s[i].key != s[j].key
  }

  ghost function MapOf(s: seq<Candidate>): (m: Tracked)
    requires Distinct(s)
    ensures forall i :: 0 <= i < |s| ==> s[i].key in m && m[s[i].key] == s[i].entry
    ensures forall k :: k in m ==> exists i :: 0 <= i < |s| && s[i].key == k
  {
    map i | 0 <= i < |s| :: s[i].key := s[i].entry
  }

  lemma {:induction false} SameMap(s: seq<Candidate>, m: Tracked)
    requires Distinct(s)
    requires forall i :: 0 <= i < |s| ==> s[i].key in m && m[s[i].key] == s[i].entry
    requires forall k :: k in m ==> exists i :: 0 <= i < |s| && s[i].key == k
    ensures MapOf(s) == m
  {
    hide MapOf;
    forall k | k in m
      ensures k in MapOf(s) && MapOf(s)[k] == m[k]
    {
      var i :| 0 <= i < |s| && s[i].key == k;
    }
    forall k | k in MapOf(s)
      ensures k in m
    {
      var i :| 0 <= i < |s| && s[i].key == k;
    }
  }

  lemma {:induction false} MapSnoc(s: seq<Candidate>, c: Candidate)
    requires Distinct(s) && c.key !in MapOf(s)
    ensures Distinct(s + [c]) && MapOf(s + [c]) == MapOf(s)[c.key := c.entry]
  {
    hide MapOf;
    var all, m := s + [c], MapOf(s)[c.key := c.entry];
    assert forall i :: 0 <= i < |s| ==> s[i].key in MapOf(s);
    forall k | k in m
      ensures exists i :: 0 <= i < |all| && all[i].key == k
    {
      if k == c.key {
        assert all[|s|].key == k;
      } else {
        var i :| 0 <= i < |s| && s[i].key == k;
        assert all[i].key == k;
      }
    }
    SameMap(all, m);
  }

  lemma {:induction false} MapSize(s: seq<Candidate>)
    requires Distinct(s)
    ensures |MapOf(s)| == |s|
  {
    hide MapOf;
    if s == [] {
      assert MapOf(s).Keys == {};
    } else {
      var init, last := s[..|s| - 1], s[|s| - 1];
      MapSize(init);
      forall i | 0 <= i < |init|
        ensures init[i].key != last.key
      {
        assert init[i] == s[i];
      }
      MapSnoc(init, last);
      assert init + [last] == s;
    }
  }

  // --- sorting by rank ---

  predicate Before(a: Candidate, b: Candidate) {
    RanksBefore(a.entry.count, a.key, b.entry.count, b.key)
  }

  ghost predicate Sorted(s: seq<Candidate>) {
    forall i, j :: 0 <= i < j < |s| ==> Before(s[i], s[j])
  }

  function Insert(s: seq<Candidate>, c: Candidate): (r: seq<Candidate>)
    ensures multiset(r) == multiset(s) + multiset{c}
  {
    if s == [] || Before(c, s[0]) then
      assert [c] + s == [c] + s;
      [c] + s
    else
      assert s == [s[0]] + s[1..];
      [s[0]] + Insert(s[1..], c)
  }

  function Sort(s: seq<Candidate>): (r: seq<Candidate>)
    ensures multiset(r) == multiset(s)
  {
    if s == [] then []
    else
      assert s == s[..|s| - 1] + [s[|s| - 1]];
      Insert(Sort(s[..|s| - 1]), s[|s| - 1])
  }

  lemma {:induction false} InsertSorts(s: seq<Candidate>, c: Candidate)
    requires Sorted(s) && Distinct(s) && forall i :: 0 <= i < |s| ==> s[i].key != c.key
    ensures Sorted(Insert(s, c)) && Distinct(Insert(s, c))
  {
    if s != [] {
      RankIsOrder(c.entry.count, c.key, s[0].entry.count, s[0].key, 0, []);
      if Before(c, s[0]) {
        forall j | 0 <= j < |s|
          ensures Before(c, s[j])
        {
          RankIsOrder(c.entry.count, c.key, s[0].entry.count, s[0].key, s[j].entry.count, s[j].key);
        }
      } else {
        InsertSorts(s[1..], c);
        var r := Insert(s[1..], c);
        forall j | 0 <= j < |r|
          ensures Before(s[0], r[j]) && s[0].key != r[j].key
        {
          assert r[j] in multiset(r);
          if r[j] != c {
            assert r[j] in s[1..];
          }
        }
      }
    }
  }

  lemma {:induction false} SortSorts(s: seq<Candidate>)
    requires Distinct(s)
    ensures Sorted(Sort(s)) && Distinct(Sort(s)) && |Sort(s)| == |s| && MapOf(Sort(s)) == MapOf(s)
  {
    hide MapOf, Insert;
    if s != [] {
      var init, last := s[..|s| - 1], s[|s| - 1];
      SortSorts(init);
      var sorted := Sort(init);
      forall i | 0 <= i < |sorted|
        ensures sorted[i].key != last.key
      {
        assert sorted[i] in multiset(sorted);
        assert sorted[i] in init;
      }
      InsertSorts(sorted, last);
    }
    SameElements(s, Sort(s));
  }

  lemma {:induction false} SameElements(s: seq<Candidate>, r: seq<Candidate>)
    requires Distinct(s) && Distinct(r) && multiset(s) == multiset(r)
    ensures |s| == |r| && MapOf(r) == MapOf(s)
  {
    hide MapOf;
    assert |multiset(s)| == |s| && |multiset(r)| == |r|;
    forall i | 0 <= i < |r|
      ensures r[i].key in MapOf(s) && MapOf(s)[r[i].key] == r[i].entry
    {
      assert r[i] in multiset(s);
      var j :| 0 <= j < |s| && s[j] == r[i];
    }
    forall k | k in MapOf(s)
      ensures exists i :: 0 <= i < |r| && r[i].key == k
    {
      var j :| 0 <= j < |s| && s[j].key == k;
      assert s[j] in multiset(r);
    }
    SameMap(r, MapOf(s));
  }

  // --- the prefix of the sorted list is the trim ---

  lemma {:induction false} BetterIsPrefix(s: seq<Candidate>, i: nat)
    requires Sorted(s) && Distinct(s) && i < |s|
    ensures |Better(MapOf(s), s[i].key)| == i
  {
    hide MapOf;
    var m := MapOf(s);
    var prefix := MapOf(s[..i]);
    MapSize(s[..i]);
    forall k | k in Better(m, s[i].key)
      ensures k in prefix
    {
      var j :| 0 <= j < |s| && s[j].key == k;
      assert i < j ==> Before(s[i], s[j]);
      RankIsOrder(s[i].entry.count, s[i].key, s[j].entry.count, s[j].key, 0, []);
      RankIsOrder(s[i].entry.count, s[i].key, s[i].entry.count, s[i].key, 0, []);
      assert s[..i][j] == s[j];
    }
    forall k | k in prefix
      ensures k in Better(m, s[i].key)
    {
      var j :| 0 <= j < i && s[..i][j].key == k;
      assert Before(s[j], s[i]);
    }
    assert Better(m, s[i].key) == prefix.Keys;
    assert |prefix| == |prefix.Keys|;
  }

  function Prefix(s: seq<Candidate>, capacity: nat): seq<Candidate> {
    if |s| <= capacity then s else s[..capacity]
  }

  lemma {:induction false} PrefixIsTrim(s: seq<Candidate>, capacity: nat)
    requires Sorted(s) && Distinct(s)
    ensures Distinct(Prefix(s, capacity)) && MapOf(Prefix(s, capacity)) == Trim(capacity, MapOf(s))
  {
    hide MapOf;
    var kept, trimmed := Prefix(s, capacity), Trim(capacity, MapOf(s));
    forall i | 0 <= i < |kept|
      ensures kept[i].key in trimmed && trimmed[kept[i].key] == kept[i].entry
    {
      assert kept[i] == s[i];
      BetterIsPrefix(s, i);
    }
    forall k | k in trimmed
      ensures exists i :: 0 <= i < |kept| && kept[i].key == k
    {
      var i :| 0 <= i < |s| && s[i].key == k;
      BetterIsPrefix(s, i);
      assert kept[i].key == k;
    }
    SameMap(kept, trimmed);
  }
}
