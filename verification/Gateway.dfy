/** Sets of names in ascending order, the order of the ordered maps. */
module SortedNames {
  import opened KeyOrder

  ghost predicate IsGreatest(s: set<Key>, x: Key) {
    x in s && forall k :: k in s && k != x ==> Less(k, x)
  }

  lemma {:induction false} GreatestExists(s: set<Key>) returns (x: Key)
    requires s != {}
    ensures IsGreatest(s, x)
    decreases |s|
  {
    hide Less;
    x :| x in s;
    if s != {x} {
      assert |s - {x}| < |s|;
      var y := GreatestExists(s - {x});
      LessTotal(x, y);
      if Less(x, y) {
        x := y;
      } else {
        forall k | k in s && k != x
          ensures Less(k, x)
        {
          if k != y {
            LessTrans(k, y, x);
          }
        }
      }
    }
  }

  lemma {:induction false} HasGreatest(s: set<Key>)
    requires s != {}
    ensures exists x :: IsGreatest(s, x)
  {
    var x := GreatestExists(s);
  }

  lemma {:induction false} GreatestUnique(s: set<Key>, x: Key, y: Key)
    requires IsGreatest(s, x) && IsGreatest(s, y)
    ensures x == y
  {
    if x != y {
      LessTrans(x, y, x);
      LessIrreflexive(x);
    }
  }

  /** The elements in ascending order. */
  ghost function Ascending(s: set<Key>): (r: seq<Key>)
    ensures |r| == |s|
    decreases |s|
  {
    if s == {} then []
    else
      HasGreatest(s);
      var x :| IsGreatest(s, x);
      assert |s - {x}| == |s| - 1;
      Ascending(s - {x}) + [x]
  }

  lemma {:induction false} AscendingSnoc(s: set<Key>, x: Key)
    requires IsGreatest(s, x)
    ensures Ascending(s) == Ascending(s - {x}) + [x]
  {
    GreatestIn(s, x);
    hide IsGreatest, Less;
    var y :| IsGreatest(s, y) && Ascending(s) == Ascending(s - {y}) + [y];
    GreatestUnique(s, x, y);
  }

  /** All elements of `s`, in order. */
  method InOrder(s: set<Key>) returns (r: seq<Key>)
    ensures r == Ascending(s)
  {
    hide IsGreatest, Less, Ascending;
    var rest := s;
    r := [];
    NothingAscends();
    while rest != {}
      invariant rest <= s && Ascending(s) == Ascending(rest) + r
      decreases |rest|
    {
      var x := Greatest(rest);
      AscendingSnoc(rest, x);
      assert Ascending(rest - {x}) + [x] + r == Ascending(rest - {x}) + ([x] + r);
      assert x in rest by { GreatestIn(rest, x); }
      assert |rest - {x}| < |rest|;
      rest := rest - {x};
      r := [x] + r;
    }
  }

  lemma {:induction false} NothingAscends()
    ensures Ascending({}) == []
  {
  }

  lemma {:induction false} GreatestIn(s: set<Key>, x: Key)
    requires IsGreatest(s, x)
    ensures x in s
  {
  }

  method Greatest(s: set<Key>) returns (x: Key)
    requires s != {}
    ensures IsGreatest(s, x)
  {
    hide Less;
    x :| x in s;
    var rest := s - {x};
    while rest != {}
      invariant rest <= s && x in s && x !in rest
      invariant forall k :: k in s && k !in rest && k != x ==> Less(k, x)
      decreases |rest|
    {
      var k :| k in rest;
      LessTotal(k, x);
      if Less(x, k) {
        forall j | j in s && j !in rest && j != x
          ensures Less(j, k)
        {
          LessTrans(j, x, k);
        }
        x := k;
      }
      rest := rest - {k};
    }
  }

  /** The prefix of the ascending list is the list of its own elements. */
  lemma {:induction false} AscendingPrefix(s: set<Key>, i: nat) returns (below: set<Key>)
    requires i <= |s|
    ensures below <= s && Ascending(s)[..i] == Ascending(below)
    ensures forall k :: k in below <==> k in Ascending(s)[..i]
    ensures i < |s| ==> Ascending(s)[i] in s && Ascending(s)[i] !in below
    ensures i < |s| ==> IsGreatest(below + {Ascending(s)[i]}, Ascending(s)[i])
    ensures i == |s| ==> below == s
    decreases |s|
  {
    hide Less, IsGreatest, Ascending;
    if i == |s| {
      below := s;
      AscendingIn(s);
      assert Ascending(s)[..i] == Ascending(s);
    } else {
      var x := GreatestExists(s);
      GreatestIn(s, x);
      AscendingSnoc(s, x);
      assert |s - {x}| == |s| - 1;
      below := AscendingPrefix(s - {x}, i);
      PrefixOfSnoc(Ascending(s - {x}), x, i);
      if i == |s| - 1 {
        assert below + {x} == s;
      }
    }
  }

  lemma {:induction false} PrefixOfSnoc(names: seq<Key>, x: Key, i: nat)
    requires i <= |names|
    ensures (names + [x])[..i] == names[..i]
    ensures (names + [x])[i] == if i < |names| then names[i] else x
  {
  }

  lemma {:induction false} AscendingIn(s: set<Key>)
    ensures forall k :: k in s <==> k in Ascending(s)
    decreases |s|
  {
    hide Less, IsGreatest;
    if s != {} {
      var x := GreatestExists(s);
      GreatestIn(s, x);
      AscendingSnoc(s, x);
      assert |s - {x}| == |s| - 1;
      AscendingIn(s - {x});
    }
  }
}

/** What the gateway keeps of its nodes and what follows from it alone. */
module GatewaySpec {
  import opened FiniteSets
  import opened KeyOrder
  import opened Options
  import opened SortedNames
  import opened Sums

  const MERGE_CACHE_SHARDS: nat := 16

  type Query = string

  /** A window's sketch state: its bounds, what it was merged from, its retained size. */
  datatype WindowState = WindowState(start: nat, end: nat, parts: seq<nat>, bytes: nat) {
    function Bounds(): (nat, nat) {
      (start, end)
    }

    /** Merging refuses other bounds and otherwise appends what the other holds. */
    function MergeFrom(other: WindowState): Option<WindowState> {
      if Bounds() != other.Bounds() then None else Some(WindowState(start, end, parts + other.parts, bytes))
    }
  }

  type PerNode = map<Key, WindowState>

  type Nodes = map<Query, PerNode>

  // --- the selected window ---

  ghost function Voters(per: PerNode, start: nat, end: nat): set<Key> {
    set n | n in per && per[n].Bounds() == (start, end)
  }

  /** The freshest end; among starts with that end the most common, the smaller on a tie. */
  ghost predicate IsSelected(per: PerNode, target: (nat, nat)) {
    && (exists n :: n in per && per[n].Bounds() == target)
    && (forall n :: n in per ==> per[n].end <= target.1)
    && forall n :: n in per && per[n].end == target.1 && per[n].start != target.0 ==>
        Outvotes(|Voters(per, target.0, target.1)|, target.0, |Voters(per, per[n].start, target.1)|, per[n].start)
  }

  predicate Outvotes(votes: nat, start: nat, otherVotes: nat, otherStart: nat) {
    votes > otherVotes || (votes == otherVotes && start < otherStart)
  }

  /** Which window is selected: one that some node has, of the freshest end, whose start more
      nodes have than any other start with that end, or as many and is smaller. */
  lemma {:induction false} SelectedMeans(per: PerNode, start: nat, end: nat)
    ensures IsSelected(per, (start, end)) <==>
      && (exists n :: n in per && per[n].start == start && per[n].end == end)
      && (forall n :: n in per ==> per[n].end <= end)
      && forall n :: n in per && per[n].end == end && per[n].start != start ==>
           var ours := |set m | m in per && per[m].start == start && per[m].end == end|;
           var others := |set m | m in per && per[m].start == per[n].start && per[m].end == end|;
           others < ours || (others == ours && start < per[n].start)
  {
    forall v: nat
      ensures Voters(per, v, end) == set m | m in per && per[m].start == v && per[m].end == end
    {
    }
  }

  lemma {:induction false} SelectedUnique(per: PerNode, a: (nat, nat), b: (nat, nat))
    requires IsSelected(per, a) && IsSelected(per, b)
    ensures a == b
  {
    var m :| m in per && per[m].Bounds() == a;
    var n :| n in per && per[n].Bounds() == b;
    assert a.1 == b.1;
  }

  // --- one shard ---

  function MergeShard(hash: Key -> nat, node: Key): nat {
    hash(node) % MERGE_CACHE_SHARDS
  }

  ghost function Members(hash: Key -> nat, per: PerNode, target: (nat, nat), shard: nat): set<Key> {
    set n | n in per && MergeShard(hash, n) == shard && per[n].Bounds() == target
  }

  ghost function OnTarget(per: PerNode, target: (nat, nat)): set<Key> {
    set n | n in per && per[n].Bounds() == target
  }

  /** The parts of these nodes, one node after the other. */
  ghost function Gathered(per: PerNode, names: seq<Key>): seq<nat>
    requires forall k :: k in names ==> k in per
  {
    if names == [] then []
    else
      assert names[|names| - 1] in names;
      Gathered(per, names[..|names| - 1]) + per[names[|names| - 1]].parts
  }

  /** `state` is the merge of exactly these nodes, in name order; nothing when there are none. */
  ghost predicate IsMergeOf(per: PerNode, target: (nat, nat), members: set<Key>, state: Option<WindowState>)
    requires members <= per.Keys
  {
    AscendingIn(members);
    match state
    case None => members == {}
    case Some(s) => members != {} && s.Bounds() == target && s.parts == Gathered(per, Ascending(members))
  }

  datatype QueryMergeCache = QueryMergeCache(target: Option<(nat, nat)>, shardStates: seq<Option<WindowState>>,
                                             shardNodes: seq<nat>, finalState: Option<WindowState>)

  ghost predicate ShardOk(hash: Key -> nat, per: PerNode, cache: QueryMergeCache, target: (nat, nat), shard: nat)
    requires |cache.shardStates| == MERGE_CACHE_SHARDS == |cache.shardNodes| && shard < MERGE_CACHE_SHARDS
  {
    && IsMergeOf(per, target, Members(hash, per, target, shard), cache.shardStates[shard])
    && cache.shardNodes[shard] == |Members(hash, per, target, shard)|
  }

  /** Every shard outside `changed` is as a recomputation for the cached target would
      leave it. */
  ghost predicate CoherentBut(hash: Key -> nat, per: PerNode, cache: QueryMergeCache, changed: set<nat>) {
    && cache.target.Some? && |cache.shardStates| == MERGE_CACHE_SHARDS == |cache.shardNodes|
    && forall shard: nat :: shard < MERGE_CACHE_SHARDS && shard !in changed ==>
        ShardOk(hash, per, cache, cache.target.value, shard)
  }

  /** The parts of all shard states, shard after shard. */
  ghost function ShardParts(states: seq<Option<WindowState>>): seq<nat> {
    if states == [] then []
    else ShardParts(states[..|states| - 1]) + (if states[|states| - 1].Some? then states[|states| - 1].value.parts else [])
  }

  ghost predicate FinalOk(cache: QueryMergeCache, per: PerNode)
    requires cache.target.Some?
  {
    cache.finalState.Some? ==>
      && cache.finalState.value.Bounds() == cache.target.value
      && cache.finalState.value.parts == ShardParts(cache.shardStates)
      && OnTarget(per, cache.target.value) == per.Keys
  }

  /** The cache agrees with a recomputation from the nodes alone. */
  ghost predicate Coherent(hash: Key -> nat, per: PerNode, cache: QueryMergeCache) {
    && CoherentBut(hash, per, cache, {})
    && IsSelected(per, cache.target.value)
    && FinalOk(cache, per)
  }

  // --- changing one node ---

  lemma {:induction false} GatheredSame(per: PerNode, after: PerNode, names: seq<Key>)
    requires forall k :: k in names ==> k in per && k in after && after[k] == per[k]
    ensures Gathered(per, names) == Gathered(after, names)
  {
    if names != [] {
      assert names[|names| - 1] in names;
      GatheredSame(per, after, names[..|names| - 1]);
    }
  }

  /** Nodes that come, go or change touch only their own shards. */
  lemma {:induction false} NodesChange(hash: Key -> nat, per: PerNode, after: PerNode, cache: QueryMergeCache,
                                       changed: set<nat>, touched: set<nat>)
    requires CoherentBut(hash, per, cache, changed)
    requires SameElsewhere(hash, per, after, touched)
    ensures CoherentBut(hash, after, cache, changed + touched)
  {
    hide MergeShard;
    var target := cache.target.value;
    forall shard: nat | shard < MERGE_CACHE_SHARDS && shard !in changed + touched
      ensures ShardOk(hash, after, cache, target, shard)
    {
      assert ShardOk(hash, per, cache, target, shard);
      var members := Members(hash, per, target, shard);
      assert Members(hash, after, target, shard) == members;
      AscendingIn(members);
      GatheredSame(per, after, Ascending(members));
    }
  }

  /** Two node maps that differ only in nodes of the touched shards. */
  ghost predicate SameElsewhere(hash: Key -> nat, per: PerNode, after: PerNode, touched: set<nat>) {
    forall n :: MergeShard(hash, n) !in touched ==> (n in after <==> n in per) && (n in per ==> after[n] == per[n])
  }

  // --- all shards together ---

  ghost function MembersBelow(hash: Key -> nat, per: PerNode, target: (nat, nat), shards: nat): set<Key> {
    set n | n in per && MergeShard(hash, n) < shards && per[n].Bounds() == target
  }

  ghost function CountSum(counts: seq<nat>): nat {
    if counts == [] then 0 else CountSum(counts[..|counts| - 1]) + counts[|counts| - 1]
  }

  lemma {:induction false} MembersStep(hash: Key -> nat, per: PerNode, target: (nat, nat), shards: nat)
    ensures MembersBelow(hash, per, target, shards + 1)
         == MembersBelow(hash, per, target, shards) + Members(hash, per, target, shards)
    ensures MembersBelow(hash, per, target, shards) !! Members(hash, per, target, shards)
    ensures |MembersBelow(hash, per, target, shards + 1)|
         == |MembersBelow(hash, per, target, shards)| + |Members(hash, per, target, shards)|
  {
    hide MergeShard;
    var a, b := MembersBelow(hash, per, target, shards), Members(hash, per, target, shards);
    assert MembersBelow(hash, per, target, shards + 1) == a + b;
    assert a !! b;
  }

  lemma {:induction false} CountsAddUp(hash: Key -> nat, per: PerNode, cache: QueryMergeCache, shards: nat)
    requires CoherentBut(hash, per, cache, {}) && shards <= MERGE_CACHE_SHARDS
    ensures CountSum(cache.shardNodes[..shards]) == |MembersBelow(hash, per, cache.target.value, shards)|
    decreases shards
  {
    hide IsMergeOf, Members, MembersBelow, MergeShard;
    var target := cache.target.value;
    if shards == 0 {
      NoneBelow(hash, per, target);
    } else {
      CountsAddUp(hash, per, cache, shards - 1);
      assert cache.shardNodes[..shards][..shards - 1] == cache.shardNodes[..shards - 1];
      assert ShardOk(hash, per, cache, target, shards - 1);
      MembersStep(hash, per, target, shards - 1);
    }
  }

  lemma {:induction false} NoneBelow(hash: Key -> nat, per: PerNode, target: (nat, nat))
    ensures MembersBelow(hash, per, target, 0) == {}
    ensures MembersBelow(hash, per, target, MERGE_CACHE_SHARDS) == OnTarget(per, target)
  {
  }

  /** The shard counts add up to the number of nodes on the target, so they equal the
      number of known nodes exactly when every live node is on it. */
  lemma {:induction false} MergedCount(hash: Key -> nat, per: PerNode, cache: QueryMergeCache)
    requires CoherentBut(hash, per, cache, {})
    ensures CountSum(cache.shardNodes) == |OnTarget(per, cache.target.value)|
    ensures CountSum(cache.shardNodes) == |per| <==> OnTarget(per, cache.target.value) == per.Keys
  {
    hide IsMergeOf, Members, MergeShard, MembersBelow;
    CountsAddUp(hash, per, cache, MERGE_CACHE_SHARDS);
    NoneBelow(hash, per, cache.target.value);
    assert cache.shardNodes[..MERGE_CACHE_SHARDS] == cache.shardNodes;
    assert |per| == |per.Keys|;
    if |OnTarget(per, cache.target.value)| == |per| {
      SameSizeSubset(OnTarget(per, cache.target.value), per.Keys);
    }
  }

  ghost function PartsOf(per: PerNode, keys: set<Key>): multiset<nat>
    requires keys <= per.Keys
  {
    AscendingIn(keys);
    multiset(Gathered(per, Ascending(keys)))
  }

  lemma {:induction false} PartsRemove(per: PerNode, keys: set<Key>, x: Key)
    requires keys <= per.Keys && x in keys
    ensures PartsOf(per, keys) == PartsOf(per, keys - {x}) + multiset(per[x].parts)
    decreases |keys|
  {
    hide IsGreatest;
    var y := GreatestExists(keys);
    GreatestIn(keys, y);
    PartsSnoc(per, keys, y);
    if x != y {
      assert |keys - {y}| == |keys| - 1;
      PartsRemove(per, keys - {y}, x);
      StillGreatest(keys, x, y);
      PartsSnoc(per, keys - {x}, y);
      assert keys - {x} - {y} == keys - {y} - {x};
    }
  }

  lemma {:induction false} StillGreatest(keys: set<Key>, x: Key, y: Key)
    requires IsGreatest(keys, y) && x != y
    ensures IsGreatest(keys - {x}, y)
  {
  }

  lemma {:induction false} PartsSnoc(per: PerNode, keys: set<Key>, y: Key)
    requires keys <= per.Keys && IsGreatest(keys, y)
    ensures y in keys && PartsOf(per, keys) == PartsOf(per, keys - {y}) + multiset(per[y].parts)
  {
    AscendingSnoc(keys, y);
    AscendingIn(keys);
    AscendingIn(keys - {y});
    GatheredSnoc(per, Ascending(keys - {y}), y);
  }

  lemma {:induction false} GatheredSnoc(per: PerNode, names: seq<Key>, y: Key)
    requires y in per && forall k :: k in names ==> k in per
    ensures Gathered(per, names + [y]) == Gathered(per, names) + per[y].parts
  {
    assert (names + [y])[..|names|] == names;
  }

  lemma {:induction false} PartsUnion(per: PerNode, a: set<Key>, b: set<Key>)
    requires a <= per.Keys && b <= per.Keys && a !! b
    ensures PartsOf(per, a + b) == PartsOf(per, a) + PartsOf(per, b)
    decreases |b|
  {
    hide PartsOf;
    if b == {} {
      assert a + b == a;
      NoParts(per);
    } else {
      var x :| x in b;
      assert |b - {x}| == |b| - 1;
      PartsRemove(per, a + b, x);
      PartsRemove(per, b, x);
      assert a + b - {x} == a + (b - {x});
      PartsUnion(per, a, b - {x});
    }
  }

  lemma {:induction false} NoParts(per: PerNode)
    ensures PartsOf(per, {}) == multiset{}
  {
  }

  lemma {:induction false} ShardsAddUp(hash: Key -> nat, per: PerNode, cache: QueryMergeCache, shards: nat)
    requires CoherentBut(hash, per, cache, {}) && shards <= MERGE_CACHE_SHARDS
    ensures MembersBelow(hash, per, cache.target.value, shards) <= per.Keys
    ensures multiset(ShardParts(cache.shardStates[..shards]))
         == PartsOf(per, MembersBelow(hash, per, cache.target.value, shards))
    decreases shards
  {
    hide MergeShard, PartsOf, Gathered, Ascending, MembersBelow, IsMergeOf;
    var target := cache.target.value;
    NoParts(per);
    BelowAreKnown(hash, per, target, shards);
    if shards == 0 {
      NoneBelow(hash, per, target);
    } else {
      ShardsAddUp(hash, per, cache, shards - 1);
      assert cache.shardStates[..shards][..shards - 1] == cache.shardStates[..shards - 1];
      assert ShardOk(hash, per, cache, target, shards - 1);
      MembersStep(hash, per, target, shards - 1);
      MergeParts(per, target, Members(hash, per, target, shards - 1), cache.shardStates[shards - 1]);
      PartsUnion(per, MembersBelow(hash, per, target, shards - 1), Members(hash, per, target, shards - 1));
    }
  }

  lemma {:induction false} BelowAreKnown(hash: Key -> nat, per: PerNode, target: (nat, nat), shards: nat)
    ensures MembersBelow(hash, per, target, shards) <= per.Keys
  {
  }

  lemma {:induction false} MergeParts(per: PerNode, target: (nat, nat), members: set<Key>, state: Option<WindowState>)
    requires members <= per.Keys && IsMergeOf(per, target, members, state)
    ensures PartsOf(per, members) == if state.Some? then multiset(state.value.parts) else multiset{}
  {
    if state.None? {
      NoParts(per);
    }
  }

  /** A cached final state holds every live node's window exactly once, and nothing else. */
  lemma {:induction false} FinalHoldsAll(hash: Key -> nat, per: PerNode, cache: QueryMergeCache)
    requires Coherent(hash, per, cache) && cache.finalState.Some?
    ensures multiset(cache.finalState.value.parts) == PartsOf(per, per.Keys)
    ensures forall n :: n in per ==> per[n].Bounds() == cache.finalState.value.Bounds()
  {
    hide MergeShard, PartsOf, ShardOk, IsSelected;
    ShardsAddUp(hash, per, cache, MERGE_CACHE_SHARDS);
    NoneBelow(hash, per, cache.target.value);
    assert cache.shardStates[..MERGE_CACHE_SHARDS] == cache.shardStates;
    assert forall n :: n in per.Keys ==> n in OnTarget(per, cache.target.value);
  }

  // --- admission and bytes ---

  ghost function NodeBytes(per: PerNode): Key -> int {
    (n: Key) => if n in per then per[n].bytes else 0
  }

  ghost function QueryBytes(nodes: Nodes): Query -> int {
    (q: Query) => if q in nodes then Sum(nodes[q].Keys, NodeBytes(nodes[q])) else 0
  }

  /** The bytes of every stored window. */
  ghost function TotalBytes(nodes: Nodes): int {
    Sum(nodes.Keys, QueryBytes(nodes))
  }

  function NodesOf(nodes: Nodes, q: Query): PerNode {
    if q in nodes then nodes[q] else map[]
  }

  ghost function AllNodes(nodes: Nodes): set<Key> {
    set q, n | q in nodes && n in nodes[q] :: n
  }

  ghost predicate NoEmptyQuery(nodes: Nodes) {
    forall q :: q in nodes ==> nodes[q] != map[]
  }

  lemma {:induction false} SetNodeBytes(per: PerNode, n: Key, state: WindowState)
    ensures Sum(per[n := state].Keys, NodeBytes(per[n := state]))
         == Sum(per.Keys, NodeBytes(per)) + state.bytes - NodeBytes(per)(n)
  {
    hide Sum;
    var after, rest := per[n := state], per.Keys - {n};
    assert after.Keys == rest + {n};
    SumInsert(rest, NodeBytes(after), n);
    SumSame(rest, NodeBytes(after), NodeBytes(per));
    if n in per {
      SumRemove(per.Keys, NodeBytes(per), n);
    } else {
      assert rest == per.Keys;
    }
  }

  lemma {:induction false} DropNodeBytes(per: PerNode, n: Key)
    requires n in per
    ensures Sum((per - {n}).Keys, NodeBytes(per - {n})) == Sum(per.Keys, NodeBytes(per)) - per[n].bytes
  {
    hide Sum;
    SumRemove(per.Keys, NodeBytes(per), n);
    assert (per - {n}).Keys == per.Keys - {n};
    SumSame(per.Keys - {n}, NodeBytes(per), NodeBytes(per - {n}));
  }

  lemma {:induction false} SetQueryBytes(nodes: Nodes, q: Query, per: PerNode)
    ensures TotalBytes(nodes[q := per])
         == TotalBytes(nodes) + Sum(per.Keys, NodeBytes(per)) - QueryBytes(nodes)(q)
  {
    hide Sum;
    var after, rest := nodes[q := per], nodes.Keys - {q};
    assert after.Keys == rest + {q};
    SumInsert(rest, QueryBytes(after), q);
    SumSame(rest, QueryBytes(after), QueryBytes(nodes));
    if q in nodes {
      SumRemove(nodes.Keys, QueryBytes(nodes), q);
    } else {
      assert rest == nodes.Keys;
    }
  }

  lemma {:induction false} NoNodesNoBytes(per: PerNode)
    requires per == map[]
    ensures Sum(per.Keys, NodeBytes(per)) == 0
  {
    assert per.Keys == {};
  }

  /** Storing one window replaces the node's old bytes by the new ones. */
  lemma {:induction false} StoreBytes(nodes: Nodes, q: Query, n: Key, state: WindowState)
    ensures TotalBytes(nodes[q := NodesOf(nodes, q)[n := state]])
         == TotalBytes(nodes) + state.bytes - NodeBytes(NodesOf(nodes, q))(n)
  {
    hide Sum;
    var per := NodesOf(nodes, q);
    SetNodeBytes(per, n, state);
    SetQueryBytes(nodes, q, per[n := state]);
    if q !in nodes {
      NoNodesNoBytes(per);
    }
  }

  lemma {:induction false} DropBytes(nodes: Nodes, q: Query, n: Key)
    requires q in nodes && n in nodes[q]
    ensures TotalBytes(nodes[q := nodes[q] - {n}]) == TotalBytes(nodes) - nodes[q][n].bytes
  {
    hide Sum;
    DropNodeBytes(nodes[q], n);
    SetQueryBytes(nodes, q, nodes[q] - {n});
  }

  /** One stored window's bytes are part of the total. */
  lemma {:induction false} BytesInTotal(nodes: Nodes, q: Query, n: Key)
    requires q in nodes && n in nodes[q]
    ensures 0 <= nodes[q][n].bytes <= TotalBytes(nodes)
  {
    hide Sum;
    SumSubset({n}, nodes[q].Keys, NodeBytes(nodes[q]));
    OneSum(n, NodeBytes(nodes[q]));
    forall p | p in nodes.Keys
      ensures 0 <= QueryBytes(nodes)(p)
    {
      SumAtLeast(nodes[p].Keys, NodeBytes(nodes[p]), 0);
    }
    SumSubset({q}, nodes.Keys, QueryBytes(nodes));
    OneSum(q, QueryBytes(nodes));
  }

  lemma {:induction false} OneSum<K(!new)>(k: K, f: K -> int)
    ensures Sum({k}, f) == f(k)
  {
    SumRemove({k}, f, k);
    assert {k} - {k} == {};
  }

  // --- expiry ---

  ghost function Live(per: PerNode, q: Query, expired: set<(Query, Key)>): PerNode {
    map n | n in per && (q, n) !in expired :: per[n]
  }

  /** What is left once the nodes in `expired` are gone, with no empty query. */
  ghost function Evicted(nodes: Nodes, expired: set<(Query, Key)>): Nodes {
    map q | q in nodes && Live(nodes[q], q, expired) != map[] :: Live(nodes[q], q, expired)
  }

  // --- one push ---

  datatype Pushed = Pushed(query: Query, state: WindowState)

  /** Whether a push that is older than the stored window arrives too late to count. */
  predicate IsOlder(nodes: Nodes, node: Key, p: Pushed) {
    node in NodesOf(nodes, p.query) && NodesOf(nodes, p.query)[node].end > p.state.end
  }

  ghost predicate Affordable(nodes: Nodes, node: Key, p: Pushed, maxBytes: nat) {
    TotalBytes(nodes) + p.state.bytes - NodeBytes(NodesOf(nodes, p.query))(node) <= maxBytes
  }

  /** The stored windows after one validated query state of a push. */
  ghost function Stored(nodes: Nodes, node: Key, p: Pushed, maxBytes: nat): Nodes {
    if IsOlder(nodes, node, p) || !Affordable(nodes, node, p, maxBytes) then nodes
    else nodes[p.query := NodesOf(nodes, p.query)[node := p.state]]
  }

  /** The node's window of the query that is stored ends later than the pushed one. */
  ghost predicate HoldsNewer(nodes: Nodes, node: Key, p: Pushed) {
    p.query in nodes && node in nodes[p.query] && p.state.end < nodes[p.query][node].end
  }

  ghost function HeldBytes(nodes: Nodes, node: Key, p: Pushed): nat {
    if p.query in nodes && node in nodes[p.query] then nodes[p.query][node].bytes else 0
  }

  /** A push is stored exactly when no newer window of the node is, and the total fits with the
      old window's bytes given back; a push that is not stored is accepted exactly when it is
      only too old. Nothing else changes. */
  lemma {:induction false} StoredExactly(nodes: Nodes, node: Key, p: Pushed, maxBytes: nat)
    ensures var after := Stored(nodes, node, p, maxBytes);
      var fits := TotalBytes(nodes) - HeldBytes(nodes, node, p) + p.state.bytes <= maxBytes;
      && (!HoldsNewer(nodes, node, p) && fits ==> p.query in after && node in after[p.query] && after[p.query][node] == p.state)
      && (HoldsNewer(nodes, node, p) || !fits ==> after == nodes)
      && (Accepts(nodes, node, p, maxBytes) <==> HoldsNewer(nodes, node, p) || fits)
      && (forall q, n :: (q, n) != (p.query, node) ==> WindowOf(after, q, n) == WindowOf(nodes, q, n))
  {
    hide TotalBytes;
  }

  function WindowOf(nodes: Nodes, q: Query, n: Key): Option<WindowState> {
    if q in nodes && n in nodes[q] then Some(nodes[q][n]) else None
  }

  ghost predicate Accepts(nodes: Nodes, node: Key, p: Pushed, maxBytes: nat) {
    IsOlder(nodes, node, p) || Affordable(nodes, node, p, maxBytes)
  }

  ghost function StoredAll(nodes: Nodes, node: Key, pushes: seq<Pushed>, maxBytes: nat): Nodes {
    if pushes == [] then nodes
    else Stored(StoredAll(nodes, node, pushes[..|pushes| - 1], maxBytes), node, pushes[|pushes| - 1], maxBytes)
  }

  ghost function AcceptedCount(nodes: Nodes, node: Key, pushes: seq<Pushed>, maxBytes: nat): nat {
    if pushes == [] then 0
    else
      AcceptedCount(nodes, node, pushes[..|pushes| - 1], maxBytes)
      + if Accepts(StoredAll(nodes, node, pushes[..|pushes| - 1], maxBytes), node, pushes[|pushes| - 1], maxBytes) then 1 else 0
  }

  /** A node the gateway knows, or one there is room for. */
  ghost predicate Admits(nodes: Nodes, node: Key, maxNodes: nat) {
    node in AllNodes(nodes) || |AllNodes(nodes)| < maxNodes
  }

  /** The stored windows after a whole push, given what had expired. */
  ghost function Applied(nodes: Nodes, node: Key, pushes: seq<Pushed>, expired: set<(Query, Key)>,
                         maxNodes: nat, maxBytes: nat): Nodes {
    if pushes == [] then nodes
    else if Admits(Evicted(nodes, expired), node, maxNodes) then StoredAll(Evicted(nodes, expired), node, pushes, maxBytes)
    else Evicted(nodes, expired)
  }

  function BytesOf(pushes: seq<Pushed>): nat {
    if pushes == [] then 0 else BytesOf(pushes[..|pushes| - 1]) + pushes[|pushes| - 1].state.bytes
  }

  /** With room for all of it, a push is accepted whole, and the node's window of every pushed
      query ends no earlier than the pushed one: it is a pushed one, or the old one. */
  lemma {:induction false} FreshestStored(nodes: Nodes, node: Key, pushes: seq<Pushed>, maxBytes: nat)
    requires TotalBytes(nodes) + BytesOf(pushes) <= maxBytes
    ensures var after := StoredAll(nodes, node, pushes, maxBytes);
      && AcceptedCount(nodes, node, pushes, maxBytes) == |pushes|
      && TotalBytes(after) <= TotalBytes(nodes) + BytesOf(pushes)
      && (forall i :: 0 <= i < |pushes| ==>
            WindowOf(after, pushes[i].query, node).Some? && pushes[i].state.end <= WindowOf(after, pushes[i].query, node).value.end)
      && (forall q :: WindowOf(after, q, node) != WindowOf(nodes, q, node) ==>
            exists i :: 0 <= i < |pushes| && pushes[i].query == q && WindowOf(after, q, node) == Some(pushes[i].state))
  {
    hide TotalBytes, Stored, Accepts;
    if pushes != [] {
      var init, p := pushes[..|pushes| - 1], pushes[|pushes| - 1];
      FreshestStored(nodes, node, init, maxBytes);
      var before, after := StoredAll(nodes, node, init, maxBytes), StoredAll(nodes, node, pushes, maxBytes);
      StoredExactly(before, node, p, maxBytes);
      StoredBytes(before, node, p, maxBytes);
      forall i | 0 <= i < |pushes|
        ensures WindowOf(after, pushes[i].query, node).Some? && pushes[i].state.end <= WindowOf(after, pushes[i].query, node).value.end
      {
        if i < |init| {
          assert pushes[i] == init[i];
        }
      }
      forall q | WindowOf(after, q, node) != WindowOf(nodes, q, node)
        ensures exists i :: 0 <= i < |pushes| && pushes[i].query == q && WindowOf(after, q, node) == Some(pushes[i].state)
      {
        if WindowOf(after, q, node) == WindowOf(before, q, node) {
          var i :| 0 <= i < |init| && init[i].query == q && WindowOf(before, q, node) == Some(init[i].state);
          assert pushes[i] == init[i];
        } else {
          assert q == p.query && pushes[|pushes| - 1] == p;
        }
      }
    }
  }

  lemma {:induction false} StoredBytes(nodes: Nodes, node: Key, p: Pushed, maxBytes: nat)
    ensures TotalBytes(Stored(nodes, node, p, maxBytes)) <= TotalBytes(nodes) + p.state.bytes
    ensures 0 <= HeldBytes(nodes, node, p) <= TotalBytes(nodes) || HeldBytes(nodes, node, p) == 0
  {
    hide TotalBytes;
    StoreBytes(nodes, p.query, node, p.state);
    if p.query in nodes && node in nodes[p.query] {
      BytesInTotal(nodes, p.query, node);
    }
  }

  /** A push is refused whole exactly when its node is new and the gateway full; otherwise
      every query of it is dealt with in turn, on what is left of unexpired windows. */
  lemma {:induction false} AppliedExactly(nodes: Nodes, node: Key, pushes: seq<Pushed>, expired: set<(Query, Key)>,
                                          maxNodes: nat, maxBytes: nat)
    requires pushes != []
    ensures var left := Evicted(nodes, expired);
      var after := Applied(nodes, node, pushes, expired, maxNodes, maxBytes);
      var known := exists q :: q in left && node in left[q];
      && (!known && maxNodes <= |set q, n | q in left && n in left[q] :: n| ==> after == left)
      && (known || |set q, n | q in left && n in left[q] :: n| < maxNodes ==>
            after == StoredAll(left, node, pushes, maxBytes))
      && forall q, n :: WindowOf(left, q, n) == if (q, n) in expired then None else WindowOf(nodes, q, n)
  {
    hide StoredAll;
    var left := Evicted(nodes, expired);
    var all := set q, n | q in left && n in left[q] :: n;
    assert AllNodes(left) == all;
    assert node in AllNodes(left) <==> exists q :: q in left && node in left[q];
    forall q, n
      ensures WindowOf(left, q, n) == if (q, n) in expired then None else WindowOf(nodes, q, n)
    {
      LiveWindow(nodes, expired, q, n);
    }
  }

  lemma {:induction false} LiveWindow(nodes: Nodes, expired: set<(Query, Key)>, q: Query, n: Key)
    ensures WindowOf(Evicted(nodes, expired), q, n) == if (q, n) in expired then None else WindowOf(nodes, q, n)
  {
    if q in nodes && n in nodes[q] && (q, n) !in expired {
      assert n in Live(nodes[q], q, expired);
    }
  }

  /** Every stored window is still there, replaced at most by one that ends no earlier. */
  ghost predicate Keeps(before: Nodes, after: Nodes) {
    forall q, n :: q in before && n in before[q] ==> q in after && n in after[q] && before[q][n].end <= after[q][n].end
  }

  lemma {:induction false} StoredKeeps(nodes: Nodes, node: Key, p: Pushed, maxBytes: nat)
    ensures Keeps(nodes, Stored(nodes, node, p, maxBytes))
    ensures NoEmptyQuery(nodes) ==> NoEmptyQuery(Stored(nodes, node, p, maxBytes))
    ensures AllNodes(Stored(nodes, node, p, maxBytes)) <= AllNodes(nodes) + {node}
    ensures TotalBytes(nodes) <= maxBytes ==> TotalBytes(Stored(nodes, node, p, maxBytes)) <= maxBytes
  {
    hide TotalBytes;
    StoreBytes(nodes, p.query, node, p.state);
  }

  lemma {:induction false} StoredAllKeeps(nodes: Nodes, node: Key, pushes: seq<Pushed>, maxBytes: nat)
    ensures Keeps(nodes, StoredAll(nodes, node, pushes, maxBytes))
    ensures NoEmptyQuery(nodes) ==> NoEmptyQuery(StoredAll(nodes, node, pushes, maxBytes))
    ensures AllNodes(StoredAll(nodes, node, pushes, maxBytes)) <= AllNodes(nodes) + {node}
    ensures TotalBytes(nodes) <= maxBytes ==> TotalBytes(StoredAll(nodes, node, pushes, maxBytes)) <= maxBytes
    decreases |pushes|
  {
    hide TotalBytes, Stored, NoEmptyQuery, AllNodes;
    if pushes != [] {
      StoredAllKeeps(nodes, node, pushes[..|pushes| - 1], maxBytes);
      StoredKeeps(StoredAll(nodes, node, pushes[..|pushes| - 1], maxBytes), node, pushes[|pushes| - 1], maxBytes);
    }
  }

  /** A push never drops or moves back the stored window of a node that has not expired,
      keeps no empty query, and stays within the node and byte limits. */
  lemma {:induction false} PushStaysAdmitted(nodes: Nodes, node: Key, pushes: seq<Pushed>, expired: set<(Query, Key)>,
                                             maxNodes: nat, maxBytes: nat)
    requires NoEmptyQuery(nodes) && |AllNodes(nodes)| <= maxNodes && TotalBytes(nodes) <= maxBytes
    requires pushes != []
    ensures var after := Applied(nodes, node, pushes, expired, maxNodes, maxBytes);
      Keeps(Evicted(nodes, expired), after) && NoEmptyQuery(after) && |AllNodes(after)| <= maxNodes && TotalBytes(after) <= maxBytes
  {
    hide TotalBytes, StoredAll;
    var left := Evicted(nodes, expired);
    EvictedFits(nodes, expired);
    if Admits(left, node, maxNodes) {
      StoredAllKeeps(left, node, pushes, maxBytes);
      SmallerSet(AllNodes(StoredAll(left, node, pushes, maxBytes)), AllNodes(left) + {node});
    }
  }

  lemma {:induction false} EvictedFits(nodes: Nodes, expired: set<(Query, Key)>)
    ensures NoEmptyQuery(Evicted(nodes, expired)) && |AllNodes(Evicted(nodes, expired))| <= |AllNodes(nodes)|
    ensures TotalBytes(Evicted(nodes, expired)) <= TotalBytes(nodes)
  {
    hide Sum;
    var left := Evicted(nodes, expired);
    assert AllNodes(left) <= AllNodes(nodes);
    SmallerSet(AllNodes(left), AllNodes(nodes));
    forall q | q in nodes.Keys
      ensures 0 <= QueryBytes(left)(q) <= QueryBytes(nodes)(q)
    {
      SumAtLeast(nodes[q].Keys, NodeBytes(nodes[q]), 0);
      if q in left {
        SumSame(left[q].Keys, NodeBytes(left[q]), NodeBytes(nodes[q]));
        SumSubset(left[q].Keys, nodes[q].Keys, NodeBytes(nodes[q]));
      }
    }
    SumMonotone(nodes.Keys, QueryBytes(left), QueryBytes(nodes));
    SumSubset(left.Keys, nodes.Keys, QueryBytes(left));
  }

  // --- caches while changes are pending ---

  type Changes = map<Query, set<nat>>

  type Caches = map<Query, QueryMergeCache>

  function ChangesOf(changed: Changes, q: Query): set<nat> {
    if q in changed then changed[q] else {}
  }

  ghost predicate SomeShards(shards: set<nat>) {
    shards != {} && forall s :: s in shards ==> s < MERGE_CACHE_SHARDS
  }

  /** Caches of queries without pending changes are coherent; the others are coherent but
      for the changed shards. */
  ghost predicate Pending(hash: Key -> nat, nodes: Nodes, caches: Caches, changed: Changes) {
    && (forall q :: q in caches ==> CoherentBut(hash, NodesOf(nodes, q), caches[q], ChangesOf(changed, q)))
    && (forall q :: q !in changed ==> (q in nodes <==> q in caches))
    && (forall q :: q in nodes && q !in changed ==> q in caches && Coherent(hash, nodes[q], caches[q]))
    && (forall q :: q in changed ==> SomeShards(changed[q]))
  }

  predicate IsShard(s: nat) {
    s < MERGE_CACHE_SHARDS
  }

  function AllShards(): set<nat> {
    set s: nat | s < MERGE_CACHE_SHARDS && IsShard(s)
  }

  function SaturatingSub(a: nat, b: nat): nat {
    if b <= a then a - b else 0
  }

  lemma {:induction false} ShardInRange(hash: Key -> nat, n: Key)
    ensures MergeShard(hash, n) == hash(n) % 16 < MERGE_CACHE_SHARDS
  {
  }

  /** Changing one query's nodes in the given shards leaves those shards pending. */
  lemma {:induction false} PendingChange(hash: Key -> nat, nodes: Nodes, after: Nodes, caches: Caches, changed: Changes,
                                         q: Query, touched: set<nat>)
    requires Pending(hash, nodes, caches, changed) && SomeShards(touched)
    requires forall p :: p != q ==> (p in after <==> p in nodes) && (p in nodes ==> after[p] == nodes[p])
    requires SameElsewhere(hash, NodesOf(nodes, q), NodesOf(after, q), touched)
    ensures Pending(hash, after, caches, changed[q := ChangesOf(changed, q) + touched])
  {
    hide CoherentBut, Coherent, SameElsewhere, MergeShard;
    if q in caches {
      NodesChange(hash, NodesOf(nodes, q), NodesOf(after, q), caches[q], ChangesOf(changed, q), touched);
    }
    var more := changed[q := ChangesOf(changed, q) + touched];
    forall p | p in caches
      ensures CoherentBut(hash, NodesOf(after, p), caches[p], ChangesOf(more, p))
    {
      if p != q {
        assert NodesOf(after, p) == NodesOf(nodes, p) && ChangesOf(more, p) == ChangesOf(changed, p);
      }
    }
    assert SomeShards(more[q]) by {
      if q in changed {
        assert SomeShards(changed[q]);
      }
    }
  }

  /** With nothing pending every query has a coherent cache and no other cache is kept. */
  lemma {:induction false} NothingPending(hash: Key -> nat, nodes: Nodes, caches: Caches)
    ensures Pending(hash, nodes, caches, map[]) <==>
      caches.Keys == nodes.Keys && forall q :: q in nodes ==> q in caches && Coherent(hash, nodes[q], caches[q])
  {
    hide ShardOk, IsSelected, FinalOk;
    if caches.Keys == nodes.Keys && forall q :: q in nodes ==> q in caches && Coherent(hash, nodes[q], caches[q]) {
      forall q | q in caches
        ensures CoherentBut(hash, NodesOf(nodes, q), caches[q], {})
      {
        assert q in nodes.Keys;
      }
    }
  }

  lemma {:induction false} CoherentWhole(hash: Key -> nat, per: PerNode, cache: QueryMergeCache)
    requires Coherent(hash, per, cache)
    ensures CoherentBut(hash, per, cache, {})
  {
    hide CoherentBut, IsSelected, FinalOk;
  }

  /** A refreshed query has nothing pending; the other queries keep what they had. */
  lemma {:induction false} PendingDone(hash: Key -> nat, nodes: Nodes, caches: Caches, changed: Changes, q: Query,
                                       after: Caches)
    requires Pending(hash, nodes, caches, changed)
    requires forall p :: p != q ==> (p in after <==> p in caches) && (p in caches ==> after[p] == caches[p])
    requires q in nodes <==> q in after
    requires q in after ==> Coherent(hash, nodes[q], after[q])
    ensures Pending(hash, nodes, after, changed - {q})
  {
    hide CoherentBut, Coherent, SomeShards, NodesOf, ChangesOf;
    var less := changed - {q};
    forall p | p in after
      ensures CoherentBut(hash, NodesOf(nodes, p), after[p], ChangesOf(less, p))
    {
      PendingOther(hash, nodes, caches, changed, q, after, p);
    }
  }

  lemma {:induction false} PendingOther(hash: Key -> nat, nodes: Nodes, caches: Caches, changed: Changes, q: Query,
                                        after: Caches, p: Query)
    requires p in after && if p == q then q in nodes && Coherent(hash, nodes[q], after[q])
                           else p in caches && after[p] == caches[p] && Pending(hash, nodes, caches, changed)
    ensures CoherentBut(hash, NodesOf(nodes, p), after[p], ChangesOf(changed - {q}, p))
  {
    hide CoherentBut, Coherent, SomeShards;
    if p == q {
      CoherentWhole(hash, nodes[q], after[q]);
    } else {
      assert ChangesOf(changed - {q}, p) == ChangesOf(changed, p);
    }
  }
}

/** The gateway under its lock. */
module Gateways {
  import opened FiniteSets
  import opened GatewaySpec
  import opened KeyOrder
  import opened Options
  import opened SortedNames
  import opened Sums

  // --- selecting a window ---

  ghost function VotersIn(per: PerNode, done: set<Key>, start: nat, end: nat): set<Key> {
    Voters(per, start, end) * done
  }

  ghost predicate Counted(per: PerNode, done: set<Key>, end: nat, votes: map<nat, nat>) {
    && (forall n :: n in done && n in per && per[n].end == end ==> per[n].start in votes)
    && (forall start :: start in votes ==> votes[start] > 0 && votes[start] == |VotersIn(per, done, start, end)|)
  }

  lemma {:induction false} OneMoreVoter(per: PerNode, done: set<Key>, start: nat, end: nat, n: Key)
    requires n in per && n !in done
    ensures |VotersIn(per, done + {n}, start, end)|
         == |VotersIn(per, done, start, end)| + if per[n].Bounds() == (start, end) then 1 else 0
  {
    var before, after := VotersIn(per, done, start, end), VotersIn(per, done + {n}, start, end);
    if per[n].Bounds() == (start, end) {
      assert after == before + {n};
    } else {
      assert after == before;
    }
  }

  lemma {:induction false} CountOther(per: PerNode, done: set<Key>, end: nat, votes: map<nat, nat>, n: Key)
    requires Counted(per, done, end, votes) && n in per && n !in done && per[n].end != end
    ensures Counted(per, done + {n}, end, votes)
  {
    hide VotersIn;
    forall start | start in votes
      ensures votes[start] == |VotersIn(per, done + {n}, start, end)|
    {
      OneMoreVoter(per, done, start, end, n);
    }
  }

  lemma {:induction false} CountOne(per: PerNode, done: set<Key>, end: nat, votes: map<nat, nat>, n: Key)
    requires Counted(per, done, end, votes) && n in per && n !in done && per[n].end == end
    ensures Counted(per, done + {n}, end,
                    votes[per[n].start := (if per[n].start in votes then votes[per[n].start] else 0) + 1])
  {
    var v := per[n].start;
    var after := votes[v := (if v in votes then votes[v] else 0) + 1];
    if v !in votes {
      NoVoters(per, done, end, votes, v);
    }
    hide VotersIn;
    forall start | start in after
      ensures after[start] == |VotersIn(per, done + {n}, start, end)|
    {
      OneMoreVoter(per, done, start, end, n);
    }
  }

  lemma {:induction false} NoVoters(per: PerNode, done: set<Key>, end: nat, votes: map<nat, nat>, start: nat)
    requires Counted(per, done, end, votes) && start !in votes
    ensures VotersIn(per, done, start, end) == {}
  {
  }

  lemma {:induction false} NoneCounted(per: PerNode, end: nat)
    ensures Counted(per, {}, end, map[])
  {
  }

  method MaxEnd(per: PerNode) returns (end: nat)
    requires per != map[]
    ensures (exists n :: n in per && per[n].end == end) && forall n :: n in per ==> per[n].end <= end
  {
    var first :| first in per;
    end := per[first].end;
    var rest := per.Keys - {first};
    while rest != {}
      invariant rest <= per.Keys
      invariant exists n :: n in per && per[n].end == end
      invariant forall n :: n in per && n !in rest ==> per[n].end <= end
      decreases |rest|
    {
      var n :| n in rest;
      if per[n].end > end {
        end := per[n].end;
      }
      rest := rest - {n};
    }
  }

  method CountVotes(per: PerNode, end: nat) returns (votes: map<nat, nat>)
    ensures Counted(per, per.Keys, end, votes)
  {
    hide Counted;
    votes := map[];
    NoneCounted(per, end);
    var rest := per.Keys;
    assert per.Keys - rest == {};
    while rest != {}
      invariant rest <= per.Keys && Counted(per, per.Keys - rest, end, votes)
      decreases |rest|
    {
      var n :| n in rest;
      assert per.Keys - rest + {n} == per.Keys - (rest - {n});
      if per[n].end != end {
        CountOther(per, per.Keys - rest, end, votes, n);
      } else {
        CountOne(per, per.Keys - rest, end, votes, n);
        var v := per[n].start;
        votes := votes[v := (if v in votes then votes[v] else 0) + 1];
      }
      rest := rest - {n};
    }
    assert per.Keys - rest == per.Keys;
  }

  method MostVoted(votes: map<nat, nat>) returns (start: nat)
    requires votes != map[]
    ensures start in votes && forall v :: v in votes && v != start ==> Outvotes(votes[start], start, votes[v], v)
  {
    start :| start in votes;
    var rest := votes.Keys - {start};
    while rest != {}
      invariant rest <= votes.Keys && start in votes && start !in rest
      invariant forall v :: v in votes && v !in rest && v != start ==> Outvotes(votes[start], start, votes[v], v)
      decreases |rest|
    {
      var v :| v in rest;
      if Outvotes(votes[v], v, votes[start], start) {
        start := v;
      }
      rest := rest - {v};
    }
  }

  method SelectedWindow(per: PerNode) returns (target: Option<(nat, nat)>)
    ensures target.None? <==> per == map[]
    ensures target.Some? ==> IsSelected(per, target.value)
  {
    if per == map[] {
      return None;
    }
    var end := MaxEnd(per);
    var votes := CountVotes(per, end);
    var newest :| newest in per && per[newest].end == end;
    assert per[newest].start in votes;
    var start := MostVoted(votes);
    VotesSelect(per, end, votes, start);
    target := Some((start, end));
  }

  lemma {:induction false} VotesSelect(per: PerNode, end: nat, votes: map<nat, nat>, start: nat)
    requires Counted(per, per.Keys, end, votes) && start in votes && forall n :: n in per ==> per[n].end <= end
    requires forall v :: v in votes && v != start ==> Outvotes(votes[start], start, votes[v], v)
    ensures IsSelected(per, (start, end))
  {
    forall v: nat
      ensures VotersIn(per, per.Keys, v, end) == Voters(per, v, end)
    {
    }
    assert votes[start] == |Voters(per, start, end)| > 0;
    assert Voters(per, start, end) != {};
    var n :| n in Voters(per, start, end);
    forall n | n in per && per[n].end == end && per[n].start != start
      ensures Outvotes(|Voters(per, start, end)|, start, |Voters(per, per[n].start, end)|, per[n].start)
    {
      assert n in per.Keys;
    }
  }

  // --- merging a shard ---

  lemma {:induction false} NoneMerged(per: PerNode, target: (nat, nat))
    ensures IsMergeOf(per, target, {}, None)
  {
  }

  /** Merging one more node, later in name order than those merged so far. */
  lemma {:induction false} MergeOneMore(per: PerNode, target: (nat, nat), members: set<Key>, state: Option<WindowState>, n: Key)
    requires members <= per.Keys && n in per && per[n].Bounds() == target && n !in members
    requires IsMergeOf(per, target, members, state) && IsGreatest(members + {n}, n)
    ensures state.None? ==> IsMergeOf(per, target, members + {n}, Some(per[n]))
    ensures state.Some? ==> state.value.MergeFrom(per[n]).Some? && IsMergeOf(per, target, members + {n}, state.value.MergeFrom(per[n]))
    ensures |members + {n}| == |members| + 1
  {
    hide IsGreatest;
    AscendingIn(members);
    AscendingIn(members + {n});
    AscendingSnoc(members + {n}, n);
    assert members + {n} - {n} == members;
    GatheredSnoc(per, Ascending(members), n);
    if state.None? {
      assert Ascending(members) == [] by { NothingAscends(); }
      assert Gathered(per, []) + per[n].parts == per[n].parts;
    }
  }

  lemma {:induction false} GreatestOfPart(below: set<Key>, members: set<Key>, n: Key)
    requires IsGreatest(below + {n}, n) && members <= below
    ensures IsGreatest(members + {n}, n)
  {
  }

  class Gateway {
    const hash: Key -> nat
    const maxNodes: nat
    const maxBytes: nat
    var nodes: Nodes
    var mergeCache: Caches
    var retainedSketchBytes: nat

    ghost predicate Admitted()
      reads this
    {
      && 0 < maxNodes && 0 < maxBytes && NoEmptyQuery(nodes)
      && |AllNodes(nodes)| <= maxNodes
      && retainedSketchBytes as int == TotalBytes(nodes) && retainedSketchBytes <= maxBytes
    }

    ghost predicate Valid()
      reads this
    {
      Admitted() && Pending(hash, nodes, mergeCache, map[])
    }

    constructor (hash: Key -> nat, maxNodes: nat, maxBytes: nat)
      requires 0 < maxNodes && 0 < maxBytes
      ensures Valid() && nodes == map[] && mergeCache == map[]
      ensures this.hash == hash && this.maxNodes == maxNodes && this.maxBytes == maxBytes
    {
      this.hash, this.maxNodes, this.maxBytes := hash, maxNodes, maxBytes;
      nodes, mergeCache, retainedSketchBytes := map[], map[], 0;
      new;
      assert AllNodes(nodes) == {};
    }

    /** The merge of exactly the nodes of one shard on the target, in name order. */
    method MergeCacheShard(per: PerNode, target: (nat, nat), shard: nat)
      returns (merged: Option<WindowState>, nodesMerged: nat)
      ensures IsMergeOf(per, target, Members(hash, per, target, shard), merged)
      ensures nodesMerged == |Members(hash, per, target, shard)|
    {
      hide IsMergeOf, IsGreatest, MergeShard, Ascending, Members, PrefixMerged;
      var names := InOrder(per.Keys);
      merged, nodesMerged := None, 0;
      StartMerge(hash, per, target, shard);
      for i := 0 to |names|
        invariant PrefixMerged(hash, per, target, shard, i, merged, nodesMerged)
      {
        var node := names[i];
        NextNode(hash, per, target, shard, i, merged, nodesMerged);
        if MergeShard(hash, node) == shard && per[node].Bounds() == target {
          if merged.None? {
            merged, nodesMerged := Some(per[node]), 1;
          } else {
            var next := merged.value.MergeFrom(per[node]);
            if next.Some? {
              merged, nodesMerged := next, nodesMerged + 1;
            }
          }
        }
      }
      EndMerge(hash, per, target, shard, merged, nodesMerged);
    }

    /** Rebuild what a change to some shards of one query has made stale: everything when
        the selected window moved, those shards otherwise. */
    method RefreshQueryCache(query: Query, ghost changed: Changes, changedShards: set<nat>) returns (rebuilt: nat)
      requires Pending(hash, nodes, mergeCache, changed) && NoEmptyQuery(nodes)
      requires query in changed && changedShards == changed[query]
      modifies this`mergeCache
      ensures Pending(hash, nodes, mergeCache, changed - {query})
      ensures rebuilt == Rebuilds(nodes, old(mergeCache), changed, query)
      ensures OthersKept(old(mergeCache), mergeCache, query)
      ensures StillSelected(nodes, old(mergeCache), query) ==>
        query in mergeCache && SameShards(old(mergeCache)[query], mergeCache[query], changedShards)
    {
      hide Pending, CoherentBut, IsSelected, ShardOk, Coherent, Ascending, MergeShard, SameShards;
      ghost var before := mergeCache;
      if query !in nodes {
        mergeCache := mergeCache - {query};
        PendingDone(hash, nodes, before, changed, query, mergeCache);
        return 0;
      }
      var per := nodes[query];
      var selected := SelectedWindow(per);
      assert per != map[];
      var target := selected.value;
      PendingCache(hash, nodes, before, changed, query);
      var cache := if query in mergeCache then mergeCache[query] else QueryMergeCache(None, [], [], None);
      var rebuildAll := cache.target != Some(target) || |cache.shardStates| != MERGE_CACHE_SHARDS
        || |cache.shardNodes| != MERGE_CACHE_SHARDS;
      if rebuildAll {
        cache := QueryMergeCache(Some(target), seq(MERGE_CACHE_SHARDS, _ => None), seq(MERGE_CACHE_SHARDS, _ => 0),
                                 cache.finalState);
      }
      var shards := if rebuildAll then AllShards() else changedShards;
      if rebuildAll {
        NothingBuilt(hash, per, cache);
      }
      SelectedStill(nodes, before, query, target);
      AllSixteen();
      cache := RebuildShards(per, cache, target, shards);
      FreshCache(hash, per, cache, target);
      mergeCache := mergeCache[query := cache];
      PendingDone(hash, nodes, before, changed, query, mergeCache);
      rebuilt := |shards|;
    }

    method RebuildShards(per: PerNode, cache: QueryMergeCache, target: (nat, nat), shards: set<nat>)
      returns (after: QueryMergeCache)
      requires CoherentBut(hash, per, cache, shards) && cache.target == Some(target) && SomeShards(shards)
      ensures CoherentBut(hash, per, after, {}) && after.target == Some(target) && after.finalState == None
      ensures SameShards(cache, after, shards)
    {
      hide CoherentBut, Members, IsMergeOf;
      after := cache.(finalState := None);
      NoFinal(hash, per, cache, shards);
      var rest := shards;
      while rest != {}
        invariant rest <= shards && CoherentBut(hash, per, after, rest)
        invariant after.target == Some(target) && after.finalState == None
        invariant SameShards(cache, after, shards)
        decreases |rest|
      {
        var shard :| shard in rest;
        var state, count := MergeCacheShard(per, target, shard);
        ShardRebuilt(hash, per, after, rest, shard, state, count);
        after := after.(shardStates := after.shardStates[shard := state], shardNodes := after.shardNodes[shard := count]);
        rest := rest - {shard};
      }
    }

    method RefreshChangedCaches(changed: Changes) returns (rebuilt: nat)
      requires Pending(hash, nodes, mergeCache, changed) && NoEmptyQuery(nodes)
      modifies this`mergeCache
      ensures Pending(hash, nodes, mergeCache, map[])
      ensures rebuilt as int == AllRebuilds(nodes, old(mergeCache), changed)
      ensures changed == map[] ==> mergeCache == old(mergeCache)
    {
      hide Pending, NoEmptyQuery, Rebuilds, OthersKept, SameShards, StillSelected;
      rebuilt := 0;
      var rest := changed;
      while rest != map[]
        invariant Pending(hash, nodes, mergeCache, rest)
        invariant rebuilt as int + AllRebuilds(nodes, mergeCache, rest) == AllRebuilds(nodes, old(mergeCache), changed)
        invariant changed == map[] ==> mergeCache == old(mergeCache)
        decreases |rest|
      {
        var query :| query in rest;
        ghost var before := mergeCache;
        var n := RefreshQueryCache(query, rest, rest[query]);
        OneRebuilt(nodes, before, mergeCache, rest, query);
        rebuilt := rebuilt + n;
        FewerChanges(rest, query);
        rest := rest - {query};
      }
      NoRebuilds(nodes, mergeCache);
    }

    /** Drop the expired nodes of one query and give back their bytes. */
    method EvictQuery(query: Query, expired: set<(Query, Key)>) returns (shards: set<nat>)
      requires query in nodes && retainedSketchBytes as int == TotalBytes(nodes)
      modifies this`nodes, this`retainedSketchBytes
      ensures nodes == old(nodes)[query := Live(old(nodes)[query], query, expired)]
      ensures retainedSketchBytes as int == TotalBytes(nodes)
      ensures SameElsewhere(hash, old(nodes)[query], nodes[query], shards)
      ensures forall s :: s in shards ==> s < MERGE_CACHE_SHARDS
      ensures shards == {} ==> nodes == old(nodes)
      ensures shards != {} ==> HasExpired(old(nodes), query, expired)
    {
      hide TotalBytes, MergeShard, PartlyDropped, SameElsewhere, Live, HasExpired;
      ghost var before := nodes;
      var stale := set n | n in nodes[query] && (query, n) in expired;
      shards := {};
      StartDropping(hash, nodes, query, expired);
      while stale != {}
        invariant PartlyDropped(hash, before, nodes, query, expired, stale, shards)
        invariant retainedSketchBytes as int == TotalBytes(nodes)
        decreases |stale|
      {
        var node :| node in stale;
        DropStep(hash, before, nodes, query, expired, stale, shards, node);
        DropNode(query, node);
        shards := shards + {MergeShard(hash, node)};
        stale := stale - {node};
      }
      EndDropping(hash, before, nodes, query, expired, shards);
    }

    method DropNode(query: Query, node: Key)
      requires query in nodes && node in nodes[query] && retainedSketchBytes as int == TotalBytes(nodes)
      modifies this`nodes, this`retainedSketchBytes
      ensures nodes == old(nodes)[query := old(nodes)[query] - {node}]
      ensures retainedSketchBytes as int == TotalBytes(nodes)
    {
      hide TotalBytes;
      BytesInTotal(nodes, query, node);
      DropBytes(nodes, query, node);
      var bytes := nodes[query][node].bytes;
      retainedSketchBytes := SaturatingSub(retainedSketchBytes, bytes);
      nodes := nodes[query := nodes[query] - {node}];
    }

    /** Drop every expired node and every query left without nodes. */
    method EvictStale(expired: set<(Query, Key)>) returns (changed: Changes)
      requires Valid()
      modifies this`nodes, this`retainedSketchBytes
      ensures nodes == Evicted(old(nodes), expired)
      ensures Admitted() && Pending(hash, nodes, mergeCache, changed)
      ensures forall q :: q in changed ==> HasExpired(old(nodes), q, expired)
    {
      hide TotalBytes, Pending, NoEmptyQuery, AllNodes, Evicted, Live;
      changed := DropExpired(expired);
      EvictedFits(old(nodes), expired);
      EmptyWeighsNothing(nodes);
      WithoutEmpty(hash, old(nodes), nodes, mergeCache, changed);
      EvictedIs(old(nodes), nodes, expired);
      nodes := map q | q in nodes && nodes[q] != map[] :: nodes[q];
      AdmittedAfter(nodes, retainedSketchBytes, maxNodes, maxBytes);
    }

    method DropExpired(expired: set<(Query, Key)>) returns (changed: Changes)
      requires Pending(hash, nodes, mergeCache, map[]) && retainedSketchBytes as int == TotalBytes(nodes)
      modifies this`nodes, this`retainedSketchBytes
      ensures nodes.Keys == old(nodes).Keys
      ensures forall q :: q in nodes ==> nodes[q] == Live(old(nodes)[q], q, expired)
      ensures forall q :: q in nodes && q !in changed ==> nodes[q] == old(nodes)[q]
      ensures retainedSketchBytes as int == TotalBytes(nodes)
      ensures Pending(hash, nodes, mergeCache, changed)
      ensures forall q :: q in changed ==> HasExpired(old(nodes), q, expired)
    {
      hide TotalBytes, Pending, SameElsewhere, Live, PartlyExpired, HasExpired;
      ghost var before := nodes;
      changed := map[];
      var rest := nodes.Keys;
      NoneExpired(before, expired);
      while rest != {}
        invariant rest <= before.Keys == nodes.Keys && PartlyExpired(before, nodes, expired, rest, changed)
        invariant retainedSketchBytes as int == TotalBytes(nodes)
        invariant Pending(hash, nodes, mergeCache, changed)
        invariant forall q :: q in changed ==> HasExpired(before, q, expired)
        decreases |rest|
      {
        var query :| query in rest;
        ghost var was := nodes;
        RestIsUntouched(before, nodes, expired, rest, changed, query);
        var shards := EvictQuery(query, expired);
        OneMoreExpired(before, was, expired, rest, changed, query, shards);
        SameNodesExpire(before, was, query, expired);
        if shards != {} {
          PendingChange(hash, was, nodes, mergeCache, changed, query, shards);
          assert ChangesOf(changed, query) + shards == shards;
          changed := changed[query := shards];
        }
        rest := rest - {query};
      }
      AllExpired(before, nodes, expired, changed);
    }

    /** Drop what expired and bring the caches of those queries up to date. */
    method Expire(expired: set<(Query, Key)>) returns (rebuilt: nat)
      requires Valid()
      modifies this
      ensures Valid() && nodes == Evicted(old(nodes), expired)
      ensures (forall q :: q in old(nodes) ==> !HasExpired(old(nodes), q, expired)) ==> rebuilt == 0
    {
      hide TotalBytes, Pending, AllNodes, NoEmptyQuery, Evicted, AllRebuilds;
      var stale := EvictStale(expired);
      rebuilt := RefreshChangedCaches(stale);
      NoRebuilds(nodes, mergeCache);
    }

    /** Apply one push of validated query states from one node. */
    method ApplyBatch(node: Key, pushes: seq<Pushed>, expired: set<(Query, Key)>)
      returns (accepted: nat, rejected: nat)
      requires Valid()
      modifies this
      ensures Valid()
      ensures nodes == Applied(old(nodes), node, pushes, expired, maxNodes, maxBytes)
      ensures accepted + rejected == |pushes|
      ensures accepted == if Admits(Evicted(old(nodes), expired), node, maxNodes)
        then AcceptedCount(Evicted(old(nodes), expired), node, pushes, maxBytes) else 0
    {
      hide TotalBytes, Pending, AllNodes, NoEmptyQuery, Evicted, Stored, Accepts, AllRebuilds;
      if pushes == [] {
        return 0, 0;
      }
      var _ := Expire(expired);
      var known := KnowsNode(node);
      var tracked := UniqueNodeCount();
      if !known && tracked >= maxNodes {
        return 0, |pushes|;
      }
      ghost var left := nodes;
      StoredAllKeeps(left, node, pushes, maxBytes);
      accepted, rejected := 0, 0;
      var changed: Changes := map[];
      for i := 0 to |pushes|
        invariant nodes == StoredAll(left, node, pushes[..i], maxBytes)
        invariant retainedSketchBytes as int == TotalBytes(nodes) && retainedSketchBytes <= maxBytes
        invariant Pending(hash, nodes, mergeCache, changed)
        invariant accepted + rejected == i && accepted == AcceptedCount(left, node, pushes[..i], maxBytes)
      {
        assert pushes[..i + 1][..i] == pushes[..i];
        ghost var was := nodes;
        var ok, stored := StorePush(node, pushes[i]);
        if stored {
          changed := Record(was, changed, node, pushes[i].query, pushes[i].state);
        }
        if ok {
          accepted := accepted + 1;
        } else {
          rejected := rejected + 1;
        }
      }
      assert pushes[..|pushes|] == pushes;
      AdmitsOne(left, nodes, node, maxNodes);
      var _ := RefreshChangedCaches(changed);
    }

    /** The shard of a stored window becomes pending for its query. */
    method Record(ghost was: Nodes, changed: Changes, node: Key, query: Query, ghost state: WindowState)
      returns (after: Changes)
      requires Pending(hash, was, mergeCache, changed)
      requires nodes == was[query := NodesOf(was, query)[node := state]]
      ensures Pending(hash, nodes, mergeCache, after)
    {
      hide Pending, MergeShard;
      ShardInRange(hash, node);
      PendingChange(hash, was, nodes, mergeCache, changed, query, {MergeShard(hash, node)});
      after := changed[query := ChangesOf(changed, query) + {MergeShard(hash, node)}];
    }

    /** Keep, replace or refuse one query state. */
    method StorePush(node: Key, p: Pushed) returns (accepted: bool, stored: bool)
      requires retainedSketchBytes as int == TotalBytes(nodes) && retainedSketchBytes <= maxBytes
      modifies this`nodes, this`retainedSketchBytes
      ensures nodes == Stored(old(nodes), node, p, maxBytes) && accepted == Accepts(old(nodes), node, p, maxBytes)
      ensures retainedSketchBytes as int == TotalBytes(nodes) && retainedSketchBytes <= maxBytes
      ensures stored ==> nodes == old(nodes)[p.query := NodesOf(old(nodes), p.query)[node := p.state]]
      ensures !stored ==> nodes == old(nodes)
      ensures stored <==> !HoldsNewer(old(nodes), node, p) && TotalBytes(old(nodes)) - HeldBytes(old(nodes), node, p) + p.state.bytes <= maxBytes
      ensures accepted <==> stored || HoldsNewer(old(nodes), node, p)
    {
      hide TotalBytes;
      var per := NodesOf(nodes, p.query);
      if node in per && per[node].end > p.state.end {
        return true, false;
      }
      var oldBytes := if node in per then per[node].bytes else 0;
      if node in per {
        BytesInTotal(nodes, p.query, node);
      }
      var projected := retainedSketchBytes - oldBytes + p.state.bytes;
      if projected > maxBytes {
        return false, false;
      }
      StoreBytes(nodes, p.query, node, p.state);
      retainedSketchBytes := projected;
      nodes := nodes[p.query := per[node := p.state]];
      return true, true;
    }

    method KnowsNode(node: Key) returns (known: bool)
      ensures known <==> node in AllNodes(nodes)
    {
      known := exists q :: q in nodes && node in nodes[q];
    }

    method UniqueNodeCount() returns (count: nat)
      ensures count == |AllNodes(nodes)|
    {
      var names: set<Key> := {};
      var rest := nodes.Keys;
      while rest != {}
        invariant rest <= nodes.Keys
        invariant names == AllNodes(nodes - rest)
        decreases |rest|
      {
        var q :| q in rest;
        MoreNames(nodes, rest, q);
        names := names + nodes[q].Keys;
        rest := rest - {q};
      }
      assert nodes - rest == nodes;
      count := |names|;
    }

    /** One report per planned query that has nodes. Estimates come only from a state that
        merges every live node exactly once. A read with nothing expired rebuilds no shard. */
    method Merged(plans: seq<Query>, expired: set<(Query, Key)>) returns (out: seq<MergedQuery>, rebuilt: nat)
      requires Valid()
      modifies this
      ensures Valid() && nodes == Evicted(old(nodes), expired)
      ensures QueriesOf(out) == Known(plans, nodes)
      ensures forall i :: 0 <= i < |out| ==> out[i].query in nodes && Reports(nodes[out[i].query], out[i])
      ensures (forall q :: q in old(nodes) ==> !HasExpired(old(nodes), q, expired)) ==> rebuilt == 0
    {
      hide TotalBytes, Pending, AllNodes, NoEmptyQuery, Evicted, Reports, HasExpired;
      rebuilt := Expire(expired);
      out := [];
      for i := 0 to |plans|
        invariant Valid() && nodes == Evicted(old(nodes), expired)
        invariant QueriesOf(out) == Known(plans[..i], nodes)
        invariant forall j :: 0 <= j < |out| ==> out[j].query in nodes && Reports(nodes[out[j].query], out[j])
      {
        assert plans[..i + 1][..i] == plans[..i];
        var query := plans[i];
        if query in nodes {
          var report := ReportQuery(query);
          out := out + [report];
        }
      }
      assert plans[..|plans|] == plans;
    }

    method ReportQuery(query: Query) returns (report: MergedQuery)
      requires query in nodes && Pending(hash, nodes, mergeCache, map[]) && NoEmptyQuery(nodes)
      modifies this`mergeCache
      ensures Pending(hash, nodes, mergeCache, map[])
      ensures report.query == query && Reports(nodes[query], report)
    {
      hide Pending, CoherentBut, IsSelected, Reports, Ascending, PartsOf;
      QueryCoherent(hash, nodes, mergeCache, query);
      ghost var before := mergeCache;
      var per, cache := nodes[query], mergeCache[query];
      var nodesMerged := 0;
      for i := 0 to |cache.shardNodes|
        invariant nodesMerged == CountSum(cache.shardNodes[..i])
      {
        assert cache.shardNodes[..i + 1][..i] == cache.shardNodes[..i];
        nodesMerged := nodesMerged + cache.shardNodes[i];
      }
      assert cache.shardNodes[..|cache.shardNodes|] == cache.shardNodes;
      MergedCount(hash, per, cache);
      var complete := nodesMerged == |per|;
      if complete && cache.finalState.None? {
        var final := MergeShards(per, cache);
        cache := cache.(finalState := final);
        FinalCoherent(hash, per, mergeCache[query], final);
        mergeCache := mergeCache[query := cache];
        OneCache(hash, nodes, before, query, cache);
      }
      report := MergedQuery(query, |per|, nodesMerged, cache.target.value.1, if complete then cache.finalState else None);
      ReportIsRight(hash, per, cache, report);
    }

    /** Merge the shard states one after the other. */
    method MergeShards(ghost per: PerNode, cache: QueryMergeCache) returns (final: Option<WindowState>)
      requires CoherentBut(hash, per, cache, {}) && cache.target.Some?
      requires OnTarget(per, cache.target.value) == per.Keys && per != map[]
      ensures final.Some? && final.value.Bounds() == cache.target.value
      ensures final.value.parts == ShardParts(cache.shardStates)
    {
      hide CoherentBut, OnTarget, ShardParts;
      final := None;
      SomeShardHolds(hash, per, cache);
      NoShardParts();
      var states, target := cache.shardStates, cache.target.value;
      for i := 0 to |states|
        invariant final.None? ==> forall j :: 0 <= j < i ==> states[j].None?
        invariant final.Some? ==> final.value.Bounds() == target
        invariant Held(final) == ShardParts(states[..i])
      {
        NextShardParts(states, i);
        ShardBounds(hash, per, cache, i);
        if states[i].Some? {
          final := if final.None? then states[i] else final.value.MergeFrom(states[i].value);
        }
      }
      assert states[..|states|] == states;
    }
  }

  function Held(state: Option<WindowState>): seq<nat> {
    if state.Some? then state.value.parts else []
  }

  lemma {:induction false} NoShardParts()
    ensures ShardParts([]) == []
  {
  }

  lemma {:induction false} NextShardParts(states: seq<Option<WindowState>>, i: nat)
    requires i < |states|
    ensures ShardParts(states[..i + 1]) == ShardParts(states[..i]) + Held(states[i])
    ensures states[..0] == []
  {
    assert states[..i + 1][..i] == states[..i];
  }

  ghost function Prefix(per: PerNode, i: nat): set<Key>
    requires i <= |per.Keys|
  {
    set k | k in Ascending(per.Keys)[..i]
  }

  /** The first `i` names have been merged. */
  ghost predicate PrefixMerged(hash: Key -> nat, per: PerNode, target: (nat, nat), shard: nat, i: nat,
                               merged: Option<WindowState>, nodesMerged: nat)
  {
    && i <= |per.Keys|
    && var members := Members(hash, per, target, shard) * Prefix(per, i);
      IsMergeOf(per, target, members, merged) && nodesMerged == |members| && (merged.None? ==> nodesMerged == 0)
  }

  lemma {:induction false} StartMerge(hash: Key -> nat, per: PerNode, target: (nat, nat), shard: nat)
    ensures PrefixMerged(hash, per, target, shard, 0, None, 0)
  {
    hide IsMergeOf;
    NoneMerged(per, target);
    assert Members(hash, per, target, shard) * Prefix(per, 0) == {};
  }

  lemma {:induction false} EndMerge(hash: Key -> nat, per: PerNode, target: (nat, nat), shard: nat,
                                    merged: Option<WindowState>, nodesMerged: nat)
    requires PrefixMerged(hash, per, target, shard, |per.Keys|, merged, nodesMerged)
    ensures IsMergeOf(per, target, Members(hash, per, target, shard), merged)
    ensures nodesMerged == |Members(hash, per, target, shard)|
  {
    hide IsMergeOf, IsGreatest, MergeShard;
    var all := AscendingPrefix(per.Keys, |per.Keys|);
    assert Members(hash, per, target, shard) * Prefix(per, |per.Keys|) == Members(hash, per, target, shard);
  }

  /** The next name in order extends the prefix by one. */
  lemma {:induction false} NextPrefix(per: PerNode, i: nat)
    requires i < |per.Keys|
    ensures var n := Ascending(per.Keys)[i];
      && n in per && n !in Prefix(per, i) && Prefix(per, i + 1) == Prefix(per, i) + {n} && Prefix(per, i) <= per.Keys
      && IsGreatest(Prefix(per, i) + {n}, n)
  {
    hide IsGreatest, Ascending;
    var names := Ascending(per.Keys);
    var below := AscendingPrefix(per.Keys, i);
    assert below == Prefix(per, i);
    assert names[..i + 1] == names[..i] + [names[i]];
    assert Prefix(per, i + 1) == below + {names[i]};
  }

  lemma {:induction false} NextNode(hash: Key -> nat, per: PerNode, target: (nat, nat), shard: nat, i: nat,
                                    merged: Option<WindowState>, nodesMerged: nat)
    requires PrefixMerged(hash, per, target, shard, i, merged, nodesMerged) && i < |per.Keys|
    ensures var n := Ascending(per.Keys)[i];
      n in per &&
      if MergeShard(hash, n) == shard && per[n].Bounds() == target then
        && (merged.None? ==> PrefixMerged(hash, per, target, shard, i + 1, Some(per[n]), 1))
        && (merged.Some? ==> merged.value.MergeFrom(per[n]).Some?)
        && (merged.Some? ==> PrefixMerged(hash, per, target, shard, i + 1, merged.value.MergeFrom(per[n]), nodesMerged + 1))
      else PrefixMerged(hash, per, target, shard, i + 1, merged, nodesMerged)
  {
    hide IsMergeOf, IsGreatest, MergeShard, Ascending, Prefix;
    NextPrefix(per, i);
    var n, below := Ascending(per.Keys)[i], Prefix(per, i);
    var all := Members(hash, per, target, shard);
    if MergeShard(hash, n) == shard && per[n].Bounds() == target {
      GreatestOfPart(below, all * below, n);
      MergeOneMore(per, target, all * below, merged, n);
      assert all * (below + {n}) == all * below + {n};
    } else {
      assert all * (below + {n}) == all * below;
    }
  }

  lemma {:induction false} PendingCache(hash: Key -> nat, nodes: Nodes, caches: Caches, changed: Changes, q: Query)
    requires Pending(hash, nodes, caches, changed) && q in changed && q in nodes
    ensures SomeShards(changed[q])
    ensures q in caches ==> CoherentBut(hash, nodes[q], caches[q], changed[q]) && caches[q].target.Some?
    ensures q in caches ==> |caches[q].shardStates| == MERGE_CACHE_SHARDS == |caches[q].shardNodes|
  {
    hide ShardOk;
    if q in caches {
      assert CoherentBut(hash, NodesOf(nodes, q), caches[q], ChangesOf(changed, q));
    }
  }

  lemma {:induction false} NothingBuilt(hash: Key -> nat, per: PerNode, cache: QueryMergeCache)
    requires cache.target.Some? && |cache.shardStates| == MERGE_CACHE_SHARDS == |cache.shardNodes|
    ensures CoherentBut(hash, per, cache, AllShards()) && SomeShards(AllShards())
  {
    assert forall s: nat :: s < MERGE_CACHE_SHARDS ==> IsShard(s);
    assert IsShard(0);
    assert 0 in AllShards();
  }

  lemma {:induction false} NoFinal(hash: Key -> nat, per: PerNode, cache: QueryMergeCache, shards: set<nat>)
    requires CoherentBut(hash, per, cache, shards)
    ensures CoherentBut(hash, per, cache.(finalState := None), shards)
  {
    hide IsMergeOf, Members;
    forall s: nat | s < MERGE_CACHE_SHARDS && s !in shards
      ensures ShardOk(hash, per, cache.(finalState := None), cache.target.value, s)
    {
      assert ShardOk(hash, per, cache, cache.target.value, s);
    }
  }

  lemma {:induction false} ShardRebuilt(hash: Key -> nat, per: PerNode, cache: QueryMergeCache, rest: set<nat>, shard: nat,
                                        state: Option<WindowState>, count: nat)
    requires CoherentBut(hash, per, cache, rest) && shard < MERGE_CACHE_SHARDS
    requires var target := cache.target.value;
      && IsMergeOf(per, target, Members(hash, per, target, shard), state)
      && count == |Members(hash, per, target, shard)|
    ensures |cache.shardStates| == MERGE_CACHE_SHARDS == |cache.shardNodes|
    ensures var after := cache.(shardStates := cache.shardStates[shard := state], shardNodes := cache.shardNodes[shard := count]);
      CoherentBut(hash, per, after, rest - {shard})
  {
    hide IsMergeOf, Members;
    var target := cache.target.value;
    var after := cache.(shardStates := cache.shardStates[shard := state], shardNodes := cache.shardNodes[shard := count]);
    forall s: nat | s < MERGE_CACHE_SHARDS && s !in rest - {shard}
      ensures ShardOk(hash, per, after, target, s)
    {
      if s != shard {
        assert ShardOk(hash, per, cache, target, s);
      }
    }
  }

  lemma {:induction false} FreshCache(hash: Key -> nat, per: PerNode, cache: QueryMergeCache, target: (nat, nat))
    requires CoherentBut(hash, per, cache, {}) && cache.target == Some(target) && cache.finalState == None
    requires IsSelected(per, target)
    ensures Coherent(hash, per, cache)
  {
  }

  lemma {:induction false} FewerChanges(changed: Changes, q: Query)
    requires q in changed
    ensures |changed - {q}| < |changed|
  {
    assert (changed - {q}).Keys == changed.Keys - {q};
    assert |changed.Keys| == |changed|;
  }

  // --- what a refresh rebuilds ---

  /** The cached window is still the one to merge. */
  ghost predicate StillSelected(nodes: Nodes, caches: Caches, q: Query) {
    q in nodes && q in caches && caches[q].target.Some? && IsSelected(nodes[q], caches[q].target.value)
  }

  ghost predicate HasExpired(nodes: Nodes, q: Query, expired: set<(Query, Key)>) {
    q in nodes && exists n :: n in nodes[q] && (q, n) in expired
  }

  /** The expired nodes of one query are gone but for `stale`. */
  ghost predicate PartlyDropped(hash: Key -> nat, before: Nodes, now: Nodes, q: Query, expired: set<(Query, Key)>,
                                stale: set<Key>, shards: set<nat>)
  {
    && q in before && q in now && now == before[q := now[q]]
    && (forall n :: n in now[q] <==> n in before[q] && ((q, n) !in expired || n in stale))
    && (forall n :: n in now[q] ==> now[q][n] == before[q][n])
    && (forall n :: n in stale ==> n in before[q] && (q, n) in expired)
    && (forall n :: n in before[q] && n !in now[q] ==> MergeShard(hash, n) in shards)
    && (forall s :: s in shards ==> s < MERGE_CACHE_SHARDS)
    && (if shards == {} then now == before else HasExpired(before, q, expired))
  }

  lemma {:induction false} StartDropping(hash: Key -> nat, nodes: Nodes, q: Query, expired: set<(Query, Key)>)
    requires q in nodes
    ensures PartlyDropped(hash, nodes, nodes, q, expired, set n | n in nodes[q] && (q, n) in expired, {})
  {
    hide MergeShard, HasExpired;
  }

  lemma {:induction false} DropStep(hash: Key -> nat, before: Nodes, now: Nodes, q: Query, expired: set<(Query, Key)>,
                                    stale: set<Key>, shards: set<nat>, node: Key)
    requires PartlyDropped(hash, before, now, q, expired, stale, shards) && node in stale
    ensures q in now && node in now[q]
    ensures PartlyDropped(hash, before, now[q := now[q] - {node}], q, expired, stale - {node},
                          shards + {MergeShard(hash, node)})
  {
    hide MergeShard;
    ShardInRange(hash, node);
    var per := now[q] - {node};
    assert forall n :: n in per <==> n in now[q] && n != node;
    assert HasExpired(before, q, expired);
  }

  lemma {:induction false} EndDropping(hash: Key -> nat, before: Nodes, now: Nodes, q: Query, expired: set<(Query, Key)>,
                                       shards: set<nat>)
    requires PartlyDropped(hash, before, now, q, expired, {}, shards)
    ensures q in before && q in now && now == before[q := Live(before[q], q, expired)]
    ensures SameElsewhere(hash, before[q], now[q], shards)
    ensures forall s :: s in shards ==> s < MERGE_CACHE_SHARDS
    ensures if shards == {} then now == before else HasExpired(before, q, expired)
  {
    hide MergeShard, HasExpired;
    assert now[q] == Live(before[q], q, expired);
  }

  lemma {:induction false} SameNodesExpire(a: Nodes, b: Nodes, q: Query, expired: set<(Query, Key)>)
    requires q in a && q in b && a[q] == b[q]
    ensures HasExpired(a, q, expired) <==> HasExpired(b, q, expired)
  {
  }

  /** How many shards a refresh merges again: the changed ones while the window stays, all
      of them when it moved, and none for a query without nodes. */
  ghost function Rebuilds(nodes: Nodes, caches: Caches, changed: Changes, q: Query): nat
    requires q in changed
  {
    if q !in nodes then 0 else if StillSelected(nodes, caches, q) then |changed[q]| else MERGE_CACHE_SHARDS
  }

  ghost function RebuildsOf(nodes: Nodes, caches: Caches, changed: Changes): Query -> int {
    q => if q in changed then Rebuilds(nodes, caches, changed, q) else 0
  }

  ghost function AllRebuilds(nodes: Nodes, caches: Caches, changed: Changes): int {
    Sum(changed.Keys, RebuildsOf(nodes, caches, changed))
  }

  ghost predicate OthersKept(before: Caches, after: Caches, q: Query) {
    forall p :: p != q ==> (p in after <==> p in before) && (p in before ==> after[p] == before[p])
  }

  /** What is cached of the other shards stays. */
  ghost predicate SameShards(before: QueryMergeCache, after: QueryMergeCache, changed: set<nat>) {
    && after.target == before.target
    && |after.shardStates| == |before.shardStates| && |after.shardNodes| == |before.shardNodes|
    && (forall s: nat :: s < |after.shardStates| && s !in changed ==> after.shardStates[s] == before.shardStates[s])
    && (forall s: nat :: s < |after.shardNodes| && s !in changed ==> after.shardNodes[s] == before.shardNodes[s])
  }

  lemma {:induction false} SelectedStill(nodes: Nodes, caches: Caches, q: Query, target: (nat, nat))
    requires q in nodes && IsSelected(nodes[q], target)
    ensures StillSelected(nodes, caches, q) <==> q in caches && caches[q].target == Some(target)
  {
    hide IsSelected;
    if StillSelected(nodes, caches, q) {
      SelectedUnique(nodes[q], caches[q].target.value, target);
    }
  }

  lemma {:induction false} SetSize(n: nat) returns (s: set<nat>)
    ensures |s| == n && forall x: nat :: x in s <==> x < n
  {
    if n == 0 {
      s := {};
    } else {
      s := SetSize(n - 1);
      s := s + {n - 1};
    }
  }

  lemma {:induction false} AllSixteen()
    ensures |AllShards()| == MERGE_CACHE_SHARDS
  {
    var s := SetSize(MERGE_CACHE_SHARDS);
    forall x: nat
      ensures x in s <==> x in AllShards()
    {
      assert IsShard(x) <==> x < MERGE_CACHE_SHARDS;
    }
    assert s == AllShards();
  }

  lemma {:induction false} OneRebuilt(nodes: Nodes, before: Caches, after: Caches, changed: Changes, q: Query)
    requires q in changed && OthersKept(before, after, q)
    ensures AllRebuilds(nodes, before, changed)
         == Rebuilds(nodes, before, changed, q) + AllRebuilds(nodes, after, changed - {q})
  {
    hide IsSelected, Sum;
    var was, now := RebuildsOf(nodes, before, changed), RebuildsOf(nodes, after, changed - {q});
    SumRemove(changed.Keys, was, q);
    assert (changed - {q}).Keys == changed.Keys - {q};
    SumSame(changed.Keys - {q}, was, now);
  }

  lemma {:induction false} NoRebuilds(nodes: Nodes, caches: Caches)
    ensures AllRebuilds(nodes, caches, map[]) == 0
  {
  }

  // --- helpers of an expiry and a push ---

  lemma {:induction false} EmptyWeighsNothing(nodes: Nodes)
    ensures TotalBytes(map q | q in nodes && nodes[q] != map[] :: nodes[q]) == TotalBytes(nodes)
  {
    hide Sum;
    var kept := map q | q in nodes && nodes[q] != map[] :: nodes[q];
    var gone := nodes.Keys - kept.Keys;
    forall q | q in gone
      ensures QueryBytes(nodes)(q) == 0
    {
      NoNodesNoBytes(nodes[q]);
    }
    SumUnion(kept.Keys, gone, QueryBytes(nodes));
    SumZero(gone, QueryBytes(nodes));
    SumSame(kept.Keys, QueryBytes(kept), QueryBytes(nodes));
    assert kept.Keys + gone == nodes.Keys;
  }

  /** The expired nodes of all queries but `rest` are gone, and `changed` lists where. */
  ghost predicate PartlyExpired(before: Nodes, now: Nodes, expired: set<(Query, Key)>, rest: set<Query>, changed: Changes) {
    && now.Keys == before.Keys && rest <= before.Keys
    && (forall q :: q in rest ==> now[q] == before[q] && q !in changed)
    && (forall q :: q in before && q !in rest ==> now[q] == Live(before[q], q, expired))
    && (forall q :: q in before && q !in changed ==> now[q] == before[q])
  }

  lemma {:induction false} NoneExpired(before: Nodes, expired: set<(Query, Key)>)
    ensures PartlyExpired(before, before, expired, before.Keys, map[])
  {
  }

  lemma {:induction false} AllExpired(before: Nodes, now: Nodes, expired: set<(Query, Key)>, changed: Changes)
    requires PartlyExpired(before, now, expired, {}, changed)
    ensures now.Keys == before.Keys && forall q :: q in now ==> now[q] == Live(before[q], q, expired)
    ensures forall q :: q in now && q !in changed ==> now[q] == before[q]
  {
    hide Live;
  }

  lemma {:induction false} RestIsUntouched(before: Nodes, now: Nodes, expired: set<(Query, Key)>, rest: set<Query>,
                                           changed: Changes, q: Query)
    requires PartlyExpired(before, now, expired, rest, changed) && q in rest
    ensures q in now && q in before && now[q] == before[q] && q !in changed
  {
    hide Live;
  }

  lemma {:induction false} OneMoreExpired(before: Nodes, was: Nodes, expired: set<(Query, Key)>, rest: set<Query>,
                                          changed: Changes, q: Query, shards: set<nat>)
    requires PartlyExpired(before, was, expired, rest, changed) && q in rest && q in was
    requires shards == {} ==> was[q := Live(was[q], q, expired)] == was
    ensures PartlyExpired(before, was[q := Live(was[q], q, expired)], expired, rest - {q},
                          if shards == {} then changed else changed[q := shards])
  {
    hide Live;
    var now := was[q := Live(was[q], q, expired)];
    assert now.Keys == was.Keys;
    assert shards == {} ==> now[q] == was[q];
  }

  lemma {:induction false} EvictedIs(before: Nodes, left: Nodes, expired: set<(Query, Key)>)
    requires left.Keys == before.Keys && forall q :: q in left ==> left[q] == Live(before[q], q, expired)
    ensures (map q | q in left && left[q] != map[] :: left[q]) == Evicted(before, expired)
  {
    hide Live;
  }

  /** Dropping queries that lost their last node leaves the same changes pending. */
  lemma {:induction false} WithoutEmpty(hash: Key -> nat, before: Nodes, nodes: Nodes, caches: Caches, changed: Changes)
    requires Pending(hash, nodes, caches, changed) && NoEmptyQuery(before)
    requires forall q :: q in nodes && q !in changed ==> q in before && nodes[q] == before[q]
    ensures Pending(hash, map q | q in nodes && nodes[q] != map[] :: nodes[q], caches, changed)
  {
    hide CoherentBut, Coherent;
    var kept := map q | q in nodes && nodes[q] != map[] :: nodes[q];
    forall q | q in caches
      ensures CoherentBut(hash, NodesOf(kept, q), caches[q], ChangesOf(changed, q))
    {
      assert NodesOf(kept, q) == NodesOf(nodes, q);
    }
  }

  lemma {:induction false} AdmittedAfter(nodes: Nodes, retained: nat, maxNodes: nat, maxBytes: nat)
    requires NoEmptyQuery(nodes) && |AllNodes(nodes)| <= maxNodes
    requires retained as int == TotalBytes(nodes) && TotalBytes(nodes) <= maxBytes
    ensures retained <= maxBytes
  {
  }

  lemma {:induction false} AdmitsOne(left: Nodes, nodes: Nodes, node: Key, maxNodes: nat)
    requires Admits(left, node, maxNodes) && |AllNodes(left)| <= maxNodes && AllNodes(nodes) <= AllNodes(left) + {node}
    ensures |AllNodes(nodes)| <= maxNodes
  {
    hide AllNodes;
    SmallerSet(AllNodes(nodes), AllNodes(left) + {node});
    if node in AllNodes(left) {
      assert AllNodes(left) + {node} == AllNodes(left);
    }
  }

  lemma {:induction false} MoreNames(nodes: Nodes, rest: set<Query>, q: Query)
    requires q in rest && q in nodes
    ensures AllNodes(nodes - (rest - {q})) == AllNodes(nodes - rest) + nodes[q].Keys
  {
    var a, b := nodes - (rest - {q}), nodes - rest;
    forall n | n in AllNodes(a)
      ensures n in AllNodes(b) + nodes[q].Keys
    {
      var p :| p in a && n in a[p];
      assert p != q ==> p in b && b[p] == a[p];
    }
    forall n | n in AllNodes(b) + nodes[q].Keys
      ensures n in AllNodes(a)
    {
      if n in nodes[q] {
        assert q in a && n in a[q];
      } else {
        var p :| p in b && n in b[p];
        assert p in a && a[p] == b[p];
      }
    }
  }

  // --- what a read reports ---

  /** `estimates` is the merged state that estimates are computed from, if any. */
  datatype MergedQuery = MergedQuery(query: Query, nodesKnown: nat, nodesMerged: nat, windowEnd: nat,
                                     estimates: Option<WindowState>)

  /** What a report must say, recomputed from the nodes: how many of them are on the
      selected window, and estimates from all of them or none at all. */
  ghost predicate Reports(per: PerNode, m: MergedQuery) {
    exists target :: IsSelected(per, target) && ReportsFor(per, target, m)
  }

  ghost predicate ReportsFor(per: PerNode, target: (nat, nat), m: MergedQuery) {
    && m.nodesKnown == |per| && m.windowEnd == target.1
    && m.nodesMerged == |OnTarget(per, target)|
    && (m.estimates.Some? <==> OnTarget(per, target) == per.Keys)
    && (m.estimates.Some? ==> m.estimates.value.Bounds() == target && multiset(m.estimates.value.parts) == PartsOf(per, per.Keys))
  }

  function QueriesOf(out: seq<MergedQuery>): seq<Query> {
    if out == [] then [] else QueriesOf(out[..|out| - 1]) + [out[|out| - 1].query]
  }

  function Known(plans: seq<Query>, nodes: Nodes): seq<Query> {
    if plans == [] then []
    else Known(plans[..|plans| - 1], nodes) + (if plans[|plans| - 1] in nodes then [plans[|plans| - 1]] else [])
  }

  lemma {:induction false} QueryCoherent(hash: Key -> nat, nodes: Nodes, caches: Caches, q: Query)
    requires Pending(hash, nodes, caches, map[]) && q in nodes && NoEmptyQuery(nodes)
    ensures q in caches && Coherent(hash, nodes[q], caches[q]) && nodes[q] != map[]
    ensures caches[q].target.Some?
  {
  }

  lemma {:induction false} OneCache(hash: Key -> nat, nodes: Nodes, caches: Caches, q: Query, cache: QueryMergeCache)
    requires Pending(hash, nodes, caches, map[]) && q in nodes && Coherent(hash, nodes[q], cache)
    ensures Pending(hash, nodes, caches[q := cache], map[])
  {
    hide ShardOk, IsSelected, FinalOk;
    NothingPending(hash, nodes, caches);
    NothingPending(hash, nodes, caches[q := cache]);
  }

  lemma {:induction false} SomeShardHolds(hash: Key -> nat, per: PerNode, cache: QueryMergeCache)
    requires CoherentBut(hash, per, cache, {})
    requires OnTarget(per, cache.target.value) == per.Keys && per != map[]
    ensures exists i :: 0 <= i < |cache.shardStates| && cache.shardStates[i].Some?
  {
    var n :| n in per;
    assert n in OnTarget(per, cache.target.value);
    var shard := MergeShard(hash, n);
    assert ShardOk(hash, per, cache, cache.target.value, shard);
    assert n in Members(hash, per, cache.target.value, shard);
  }

  lemma {:induction false} ShardBounds(hash: Key -> nat, per: PerNode, cache: QueryMergeCache, i: nat)
    requires CoherentBut(hash, per, cache, {}) && i < |cache.shardStates|
    ensures cache.shardStates[i].Some? ==> cache.shardStates[i].value.Bounds() == cache.target.value
  {
    assert ShardOk(hash, per, cache, cache.target.value, i);
  }

  lemma {:induction false} FinalCoherent(hash: Key -> nat, per: PerNode, cache: QueryMergeCache, final: Option<WindowState>)
    requires Coherent(hash, per, cache) && OnTarget(per, cache.target.value) == per.Keys
    requires final.Some? && final.value.Bounds() == cache.target.value && final.value.parts == ShardParts(cache.shardStates)
    ensures Coherent(hash, per, cache.(finalState := final))
  {
    hide IsMergeOf, Members;
    var after := cache.(finalState := final);
    forall s: nat | s < MERGE_CACHE_SHARDS
      ensures ShardOk(hash, per, after, cache.target.value, s)
    {
      assert ShardOk(hash, per, cache, cache.target.value, s);
    }
  }

  lemma {:induction false} ReportIsRight(hash: Key -> nat, per: PerNode, cache: QueryMergeCache, m: MergedQuery)
    requires Coherent(hash, per, cache) && cache.target.Some?
    requires m.nodesKnown == |per| && m.windowEnd == cache.target.value.1 && m.nodesMerged == CountSum(cache.shardNodes)
    requires m.estimates == if m.nodesMerged == |per| then cache.finalState else None
    requires m.nodesMerged == |per| ==> cache.finalState.Some?
    ensures Reports(per, m)
  {
    hide CoherentBut, IsSelected, PartsOf, ShardParts;
    MergedCount(hash, per, cache);
    if cache.finalState.Some? {
      FinalHoldsAll(hash, per, cache);
    }
    assert ReportsFor(per, cache.target.value, m);
  }
}
