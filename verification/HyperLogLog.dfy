/** HyperLogLog storage as a function of the set of distinct hashes. */
module HllSpec {
  import opened Arithmetic

  const HASH_BITS: nat := 64
  const MIN_PRECISION: nat := 4
  const MAX_PRECISION: nat := 18
  const SPARSE_MEMORY_FRACTION: nat := 4
  const HASH_BYTES: nat := 8

  type Precision = p: nat | MIN_PRECISION <= p <= MAX_PRECISION witness MIN_PRECISION

  ghost predicate IsHash(h: nat) {
    h < Pow2(HASH_BITS)
  }

  function SparseLimit(p: Precision): (r: nat)
    ensures r >= 1
  {
    var limit := Pow2(p) / (SPARSE_MEMORY_FRACTION * HASH_BYTES);
    if limit < 1 then 1 else limit
  }

  /** The top `p` bits of a hash. */
  function Index(p: Precision, hash: nat): nat {
    hide Pow2;
    hash / Pow2(HASH_BITS - p)
  }

  function LeadingZeros(x: nat, bits: nat): nat {
    if bits == 0 || x >= Pow2(bits - 1) then 0 else 1 + LeadingZeros(x, bits - 1)
  }

  /** Shifting out the top `p` bits and counting leading zeros, capped. */
  function Rho(p: Precision, hash: nat): nat {
    var remaining := hash * Pow2(p) % Pow2(HASH_BITS);
    var zeros := LeadingZeros(remaining, HASH_BITS) + 1;
    if zeros < HASH_BITS - p + 1 then zeros else HASH_BITS - p + 1
  }

  lemma {:induction false} IndexFits(p: Precision, hash: nat)
    requires IsHash(hash)
    ensures Index(p, hash) < Pow2(p)
  {
    hide Pow2;
    Pow2Adds(p, HASH_BITS - p);
    DivMod(hash, Pow2(HASH_BITS - p));
    if Pow2(p) <= Index(p, hash) {
      MulMonotone(Pow2(p), Index(p, hash), Pow2(HASH_BITS - p));
      assert false;
    }
  }

  /** The index is the hash's top `p` bits: the tail is what is left below them. */
  lemma {:induction false} IndexMeaning(p: Precision, hash: nat)
    ensures hash == Index(p, hash) * Pow2(64 - p) + Tail(p, hash) && Tail(p, hash) < Pow2(64 - p)
  {
    hide Pow2;
    DivMod(hash, Pow2(HASH_BITS - p));
  }

  /** Sparse storage holds one hash, or as many as take a quarter of the registers' bytes. */
  lemma {:induction false} SparseLimitMeans(p: Precision)
    ensures Pow2(p) < 64 ==> SparseLimit(p) == 1
    ensures 64 <= Pow2(p) ==> 32 * SparseLimit(p) <= Pow2(p) < 32 * (SparseLimit(p) + 1)
  {
    hide Pow2;
  }

  lemma {:induction false} ZerosMean(x: nat, bits: nat, z: nat)
    requires x < Pow2(bits) && z == LeadingZeros(x, bits)
    ensures z <= bits && x < Pow2(bits - z) && (z < bits ==> Pow2(bits - z - 1) <= x)
    decreases bits
  {
    if bits > 0 && x < Pow2(bits - 1) {
      ZerosMean(x, bits - 1, z - 1);
    }
  }

  /** The bits left of a hash below its register index. */
  function Tail(p: Precision, hash: nat): nat {
    hash % Pow2(HASH_BITS - p)
  }

  lemma {:induction false} ShiftedTail(p: Precision, hash: nat)
    ensures hash * Pow2(p) % Pow2(HASH_BITS) == Tail(p, hash) * Pow2(p)
  {
    hide Pow2;
    var low, high := Pow2(HASH_BITS - p), Pow2(p);
    Pow2Adds(HASH_BITS - p, p);
    DivMod(hash, low);
    var q := hash / low;
    assert hash * high == q * (low * high) + Tail(p, hash) * high by {
      assert (q * low + Tail(p, hash)) * high == q * low * high + Tail(p, hash) * high;
      assert q * low * high == q * (low * high);
    }
    MulStrict(Tail(p, hash), low, high);
    DivModUnique(q, Tail(p, hash) * high, low * high);
  }

  lemma {:induction false} ScaledBelow(x: nat, a: nat, b: nat, s: nat)
    requires 0 < s && a * s <= x * s < b * s
    ensures a <= x < b
  {
    if x < a {
      MulStrict(x, a, s);
      assert false;
    }
    if b <= x {
      MulMonotone(b, x, s);
      assert false;
    }
  }

  /** What a register records of a hash: `r - 1` zero bits and then a one after the
      index, or `64 - p + 1` when only zeros follow it. */
  lemma {:induction false} RhoMeaning(p: Precision, hash: nat)
    ensures var r := Rho(p, hash);
      && 1 <= r <= HASH_BITS - p + 1
      && (r <= HASH_BITS - p ==> Pow2(HASH_BITS - p - r) <= Tail(p, hash) < Pow2(HASH_BITS - p - r + 1))
      && (r == HASH_BITS - p + 1 <==> Tail(p, hash) == 0)
  {
    hide Pow2;
    var x, z := hash * Pow2(p) % Pow2(HASH_BITS), LeadingZeros(hash * Pow2(p) % Pow2(HASH_BITS), HASH_BITS);
    ShiftedTail(p, hash);
    DivMod(hash * Pow2(p), Pow2(HASH_BITS));
    ZerosMean(x, HASH_BITS, z);
    if z < HASH_BITS - p {
      Pow2Adds(HASH_BITS - p - z, p);
      Pow2Adds(HASH_BITS - p - z - 1, p);
      ScaledBelow(Tail(p, hash), Pow2(HASH_BITS - p - z - 1), Pow2(HASH_BITS - p - z), Pow2(p));
    } else {
      Pow2Grows(HASH_BITS - z, p);
      if Tail(p, hash) > 0 {
        MulMonotone(1, Tail(p, hash), Pow2(p));
        assert false;
      }
    }
  }

  // --- canonical storage ---

  datatype Storage = Empty | Singleton(hash: nat) | Sparse(hashes: seq<nat>) | Dense(registers: seq<nat>)

  ghost predicate StrictlySorted(s: seq<nat>) {
    forall i, j :: 0 <= i < j < |s| ==> s[i] < s[j]
  }

  ghost function Elements(s: seq<nat>): set<nat> {
    set h | h in s
  }

  /** `r` is the largest rho among the hashes of register `i`, or zero without any. */
  ghost predicate IsRegister(p: Precision, hashes: set<nat>, i: nat, r: nat) {
    && (forall h :: h in hashes && Index(p, h) == i ==> Rho(p, h) <= r)
    && (r == 0 || exists h :: h in hashes && Index(p, h) == i && Rho(p, h) == r)
  }

  ghost predicate RegistersOf(p: Precision, hashes: set<nat>, registers: seq<nat>) {
    && |registers| == Pow2(p)
    && forall i :: 0 <= i < |registers| ==> IsRegister(p, hashes, i, registers[i])
  }

  /** The largest element, or zero without any. */
  function Highest(s: set<nat>): (r: nat)
    ensures (s == {} && r == 0) || r in s
    ensures forall x :: x in s ==> x <= r
  {
    if s == {} then 0
    else
      HasHighest(s);
      var m :| m in s && forall x :: x in s ==> x <= m;
      m
  }

  lemma {:induction false} HasHighest(s: set<nat>)
    requires s != {}
    ensures exists m :: m in s && forall x :: x in s ==> x <= m
  {
    var y :| y in s;
    var rest := s - {y};
    assert s == rest + {y};
    if rest == {} {
      assert y in s && forall x :: x in s ==> x <= y;
    } else {
      HasHighest(rest);
      var m :| m in rest && forall x :: x in rest ==> x <= m;
      var top := if m < y then y else m;
      assert top in s && forall x :: x in s ==> x <= top;
    }
  }

  /** The register array of a set of hashes. */
  function Registers(p: Precision, hashes: set<nat>): seq<nat> {
    hide Pow2, Index, Rho;
    seq(Pow2(p), i => Highest(set h | h in hashes && Index(p, h) == i :: Rho(p, h)))
  }

  lemma {:induction false} RegistersAre(p: Precision, hashes: set<nat>)
    ensures RegistersOf(p, hashes, Registers(p, hashes))
  {
    hide Pow2, Index, Rho, Highest;
    var registers := Registers(p, hashes);
    forall i | 0 <= i < |registers|
      ensures IsRegister(p, hashes, i, registers[i])
    {
      var rhos := set h | h in hashes && Index(p, h) == i :: Rho(p, h);
      assert registers[i] == Highest(rhos);
      forall h | h in hashes && Index(p, h) == i
        ensures Rho(p, h) <= registers[i]
      {
        assert Rho(p, h) in rhos;
      }
    }
  }

  ghost predicate AreHashes(hashes: set<nat>) {
    forall h :: h in hashes ==> IsHash(h)
  }

  ghost predicate Canonical(p: Precision, hashes: set<nat>, storage: Storage) {
    match storage
    case Empty => hashes == {}
    case Singleton(hash) => hashes == {hash}
    case Sparse(s) => StrictlySorted(s) && Elements(s) == hashes && 2 <= |hashes| <= SparseLimit(p)
    case Dense(registers) => RegistersOf(p, hashes, registers) && SparseLimit(p) < |hashes|
  }

  lemma {:induction false} SortedSize(s: seq<nat>)
    requires StrictlySorted(s)
    ensures |Elements(s)| == |s|
  {
    if s != [] {
      var init, last := s[..|s| - 1], s[|s| - 1];
      SortedSize(init);
      assert Elements(s) == Elements(init) + {last} by {
        assert s == init + [last];
      }
      assert last !in Elements(init);
    }
  }

  /** The last hash of a listing is the greatest; without it the rest is a listing. */
  lemma {:induction false} LastOfSorted(s: seq<nat>)
    requires StrictlySorted(s) && s != []
    ensures var last := s[|s| - 1];
      && last in Elements(s) && (forall h :: h in Elements(s) ==> h <= last)
      && StrictlySorted(s[..|s| - 1]) && Elements(s[..|s| - 1]) == Elements(s) - {last}
  {
    var init, last := s[..|s| - 1], s[|s| - 1];
    assert s == init + [last];
    assert last !in init;
  }

  /** A set has one sorted listing. */
  lemma {:induction false} SortedUnique(s: seq<nat>, t: seq<nat>)
    requires StrictlySorted(s) && StrictlySorted(t) && Elements(s) == Elements(t)
    ensures s == t
    decreases |s|
  {
    hide StrictlySorted, Elements;
    SortedSize(s);
    SortedSize(t);
    if s != [] {
      LastOfSorted(s);
      LastOfSorted(t);
      var x, y := s[|s| - 1], t[|t| - 1];
      assert x == y;
      SortedUnique(s[..|s| - 1], t[..|t| - 1]);
      assert s == s[..|s| - 1] + [x] && t == t[..|t| - 1] + [y];
    }
  }

  lemma {:induction false} RegistersUnique(p: Precision, hashes: set<nat>, a: seq<nat>, b: seq<nat>)
    requires RegistersOf(p, hashes, a) && RegistersOf(p, hashes, b)
    ensures a == b
  {
    hide Index, Rho;
    forall i | 0 <= i < |a|
      ensures a[i] == b[i]
    {
      assert IsRegister(p, hashes, i, a[i]) && IsRegister(p, hashes, i, b[i]);
    }
  }

  /** The stored form depends only on the set of distinct hashes, and is dense exactly
      when the set outgrows the sparse limit. */
  lemma {:induction false} CanonicalUnique(p: Precision, hashes: set<nat>, a: Storage, b: Storage)
    requires Canonical(p, hashes, a) && Canonical(p, hashes, b)
    ensures a == b
    ensures a.Dense? <==> |hashes| > SparseLimit(p)
  {
    hide RegistersOf;
    if a.Sparse? && b.Sparse? {
      SortedUnique(a.hashes, b.hashes);
    }
    if a.Dense? && b.Dense? {
      RegistersUnique(p, hashes, a.registers, b.registers);
    }
  }

  /** No dense register exceeds `64 - p + 1`. */
  lemma {:induction false} RegistersBounded(p: Precision, hashes: set<nat>, registers: seq<nat>, i: nat)
    requires RegistersOf(p, hashes, registers) && i < |registers|
    ensures registers[i] <= HASH_BITS - p + 1
  {
    hide Rho, Index;
    assert IsRegister(p, hashes, i, registers[i]);
    if registers[i] > 0 {
      var h :| h in hashes && Index(p, h) == i && Rho(p, h) == registers[i];
      RhoMeaning(p, h);
    }
  }

  function Max(a: nat, b: nat): nat {
    if a < b then b else a
  }

  /** The registers of a union are the pointwise maxima. */
  lemma {:induction false} UnionRegisters(p: Precision, s: set<nat>, t: set<nat>, a: seq<nat>, b: seq<nat>, c: seq<nat>)
    requires RegistersOf(p, s, a) && RegistersOf(p, t, b)
    requires |c| == |a| && forall i :: 0 <= i < |c| ==> c[i] == Max(a[i], b[i])
    ensures RegistersOf(p, s + t, c)
  {
    hide Index, Rho, Pow2;
    forall i | 0 <= i < |c|
      ensures IsRegister(p, s + t, i, c[i])
    {
      assert IsRegister(p, s, i, a[i]) && IsRegister(p, t, i, b[i]);
      UnionRegister(p, s, t, i, a[i], b[i]);
    }
  }

  lemma {:induction false} UnionRegister(p: Precision, s: set<nat>, t: set<nat>, i: nat, a: nat, b: nat)
    requires IsRegister(p, s, i, a) && IsRegister(p, t, i, b)
    ensures IsRegister(p, s + t, i, Max(a, b))
  {
    hide Index, Rho;
    if a > 0 {
      var h :| h in s && Index(p, h) == i && Rho(p, h) == a;
      assert h in s + t;
    }
    if b > 0 {
      var h :| h in t && Index(p, h) == i && Rho(p, h) == b;
      assert h in s + t;
    }
  }

  function Updated(p: Precision, registers: seq<nat>, hash: nat): seq<nat>
    requires Index(p, hash) < |registers|
  {
    if Rho(p, hash) > registers[Index(p, hash)] then registers[Index(p, hash) := Rho(p, hash)] else registers
  }

  lemma {:induction false} UpdateRegisters(p: Precision, hashes: set<nat>, registers: seq<nat>, hash: nat)
    requires RegistersOf(p, hashes, registers) && Index(p, hash) < |registers|
    ensures RegistersOf(p, hashes + {hash}, Updated(p, registers, hash))
  {
    hide Index, Rho, Pow2;
    var after := Updated(p, registers, hash);
    forall i | 0 <= i < |after|
      ensures IsRegister(p, hashes + {hash}, i, after[i])
    {
      assert IsRegister(p, hashes, i, registers[i]);
      if i == Index(p, hash) {
        assert IsRegister(p, {hash}, i, Rho(p, hash));
        UnionRegister(p, hashes, {hash}, i, registers[i], Rho(p, hash));
      } else {
        assert IsRegister(p, {hash}, i, 0);
        UnionRegister(p, hashes, {hash}, i, registers[i], 0);
      }
    }
  }

  lemma {:induction false} NoRegisters(p: Precision)
    ensures RegistersOf(p, {}, seq(Pow2(p), _ => 0))
  {
    hide Pow2;
  }

  /** Inserting at the right place keeps a listing sorted. */
  lemma {:induction false} InsertSorted(s: seq<nat>, position: nat, hash: nat)
    requires StrictlySorted(s) && position <= |s|
    requires forall i :: 0 <= i < position ==> s[i] < hash
    requires forall i :: position <= i < |s| ==> hash < s[i]
    ensures StrictlySorted(s[..position] + [hash] + s[position..])
    ensures Elements(s[..position] + [hash] + s[position..]) == Elements(s) + {hash}
  {
    var r := s[..position] + [hash] + s[position..];
    forall h | h in Elements(s) + {hash}
      ensures h in Elements(r)
    {
      if h == hash {
        assert r[position] == h;
      } else {
        var i :| 0 <= i < |s| && s[i] == h;
        assert r[if i < position then i else i + 1] == h;
      }
    }
  }
}

/** The sketch object. `seen` is the set of distinct hashes that reached it. */
module HyperLogLogs {
  import opened Arithmetic
  import opened FiniteSets
  import opened HashSpecs
  import opened HllSpec

  ghost predicate Splits(s: seq<nat>, position: nat, hash: nat) {
    && position <= |s|
    && (forall i :: 0 <= i < position ==> s[i] < hash)
    && (forall i :: position <= i < |s| ==> hash < s[i])
  }

  /** Position of `hash` in a sorted listing, or where it belongs. */
  method BinarySearch(s: seq<nat>, hash: nat) returns (found: bool, position: nat)
    requires StrictlySorted(s)
    ensures found <==> hash in s
    ensures !found ==> Splits(s, position, hash)
  {
    var low, high := 0, |s|;
    while low < high
      invariant 0 <= low <= high <= |s|
      invariant forall i :: 0 <= i < low ==> s[i] < hash
      invariant forall i :: high <= i < |s| ==> hash < s[i]
    {
      var mid := (low + high) / 2;
      if s[mid] == hash {
        return true, mid;
      } else if s[mid] < hash {
        low := mid + 1;
      } else {
        high := mid;
      }
    }
    return false, low;
  }

  method PointwiseMax(ours: seq<nat>, theirs: seq<nat>) returns (mine: seq<nat>)
    requires |ours| == |theirs|
    ensures |mine| == |ours| && forall i :: 0 <= i < |mine| ==> mine[i] == Max(ours[i], theirs[i])
  {
    mine := ours;
    var i := 0;
    while i < |theirs|
      invariant 0 <= i <= |theirs| && |mine| == |theirs|
      invariant forall j :: 0 <= j < i ==> mine[j] == Max(ours[j], theirs[j])
      invariant forall j :: i <= j < |mine| ==> mine[j] == ours[j]
    {
      if theirs[i] > mine[i] {
        mine := mine[i := theirs[i]];
      }
      i := i + 1;
    }
  }

  class HyperLogLog {
    const precision: Precision
    const hashSpec: HashSpec
    var storage: Storage
    var updates: nat
    ghost var seen: set<nat>

    ghost predicate Valid()
      reads this
    {
      Canonical(precision, seen, storage) && AreHashes(seen)
    }

    constructor (precision: Precision, hashSpec: HashSpec)
      ensures Valid() && seen == {} && storage == Empty && updates == 0
      ensures this.precision == precision && this.hashSpec == hashSpec
    {
      this.precision, this.hashSpec := precision, hashSpec;
      storage, updates, seen := Empty, 0, {};
    }

    method Insert(hash: nat)
      requires Valid() && IsHash(hash)
      modifies this
      ensures Valid() && seen == old(seen) + {hash} && updates == old(updates) + 1
    {
      updates := updates + 1;
      InsertHash(hash);
    }

    method InsertHash(hash: nat)
      requires Valid() && IsHash(hash)
      modifies this`storage, this`seen
      ensures Valid() && seen == old(seen) + {hash}
    {
      hide Index, Rho, Pow2, RegistersOf, SparseLimit, IsHash, StrictlySorted, Elements;
      var limit := SparseLimit(precision);
      match storage {
        case Empty =>
          storage, seen := Singleton(hash), seen + {hash};
          return;
        case Singleton(existing) =>
          if existing == hash {
            assert seen + {hash} == seen;
            return;
          }
          seen := seen + {hash};
          PairSize(existing, hash);
          if limit > 1 {
            storage := Sparse(if existing < hash then [existing, hash] else [hash, existing]);
            PairSorted(existing, hash);
            return;
          }
        case Sparse(hashes) =>
          ElementsIn(hashes);
          SortedSize(hashes);
          var found, position := BinarySearch(hashes, hash);
          if found {
            assert seen + {hash} == seen;
            return;
          }
          seen := seen + {hash};
          if |hashes| < limit {
            InsertSorted(hashes, position, hash);
            storage := Sparse(hashes[..position] + [hash] + hashes[position..]);
            return;
          }
        case Dense(registers) =>
          DenseInsert(precision, seen, registers, hash);
          storage, seen := Dense(Updated(precision, registers, hash)), seen + {hash};
          return;
      }
      ghost var before := old(seen);
      EnsureDense(before);
      DenseRegister(precision, before, storage.registers, hash);
      storage := Dense(Updated(precision, storage.registers, hash));
    }

    /** Replay the sparse hashes into a register array. */
    method EnsureDense(ghost hashes: set<nat>)
      requires Canonical(precision, hashes, storage) && forall h :: h in hashes ==> IsHash(h)
      modifies this`storage
      ensures storage.Dense? && RegistersOf(precision, hashes, storage.registers)
    {
      hide Index, Rho, Pow2, RegistersOf, SparseLimit, IsHash, StrictlySorted, Elements;
      if storage.Dense? {
        return;
      }
      var sparse := match storage
        case Empty => []
        case Singleton(hash) => [hash]
        case Sparse(s) => s;
      ElementsIn(sparse);
      assert Elements(sparse) == hashes;
      var registers := seq(Pow2(precision), _ => 0);
      NoRegisters(precision);
      var i := 0;
      assert Elements(sparse[..0]) == {} by { ElementsIn(sparse[..0]); }
      while i < |sparse|
        invariant 0 <= i <= |sparse|
        invariant RegistersOf(precision, Elements(sparse[..i]), registers)
      {
        assert IsHash(sparse[i]) by { assert sparse[i] in Elements(sparse); }
        DenseRegister(precision, Elements(sparse[..i]), registers, sparse[i]);
        registers := Updated(precision, registers, sparse[i]);
        NextElement(sparse, i);
        i := i + 1;
      }
      assert sparse[..i] == sparse;
      storage := Dense(registers);
    }

    method InsertAll(hashes: seq<nat>)
      requires Valid() && forall h :: h in Elements(hashes) ==> IsHash(h)
      modifies this`storage, this`seen
      ensures Valid() && seen == old(seen) + Elements(hashes)
    {
      hide Canonical, IsHash, Elements;
      var i := 0;
      ElementsIn(hashes);
      ElementsIn(hashes[..0]);
      while i < |hashes|
        invariant 0 <= i <= |hashes| && Valid()
        invariant seen == old(seen) + Elements(hashes[..i])
      {
        assert hashes[i] in Elements(hashes);
        InsertHash(hashes[i]);
        NextElement(hashes, i);
        i := i + 1;
      }
      assert hashes[..i] == hashes;
    }

    /** Merging a sketch of the same precision and hash gives the storage of the union. */
    method MergeFrom(other: HyperLogLog) returns (ok: bool)
      requires Valid() && other.Valid() && other != this
      modifies this
      ensures Valid() && (ok <==> other.precision == precision && other.hashSpec == hashSpec)
      ensures seen == if ok then old(seen) + other.seen else old(seen)
      ensures updates == old(updates) + (if ok then other.updates else 0)
    {
      hide Index, Rho, Pow2, RegistersOf, SparseLimit, IsHash, StrictlySorted, Elements;
      ok := other.precision == precision && other.hashSpec == hashSpec;
      if !ok {
        return;
      }
      ghost var before := seen;
      match other.storage {
        case Empty =>
          assert before + other.seen == before;
        case Singleton(hash) =>
          InsertHash(hash);
        case Sparse(hashes) =>
          InsertAll(hashes);
        case Dense(theirs) =>
          EnsureDense(before);
          RegisterCount(precision, before, storage.registers);
          RegisterCount(precision, other.seen, theirs);
          var mine := PointwiseMax(storage.registers, theirs);
          UnionRegisters(precision, before, other.seen, storage.registers, theirs, mine);
          SmallerSet(other.seen, before + other.seen);
          storage, seen := Dense(mine), before + other.seen;
      }
      updates := updates + other.updates;
    }
  }

  /** Two sketches that saw the same distinct hashes, in whatever order and through
      whatever merges, hold the same storage. */
  lemma {:induction false} SameHashesSameStorage(a: HyperLogLog, b: HyperLogLog)
    requires a.Valid() && b.Valid() && a.precision == b.precision && a.seen == b.seen
    ensures a.storage == b.storage
    ensures a.storage.Dense? <==> |a.seen| > SparseLimit(a.precision)
  {
    CanonicalUnique(a.precision, a.seen, a.storage, b.storage);
  }

  lemma {:induction false} PairSize(a: nat, b: nat)
    requires a != b
    ensures |{a} + {b}| == 2
  {
    assert |{a} + {b} - {a}| == |{b}|;
  }

  lemma {:induction false} PairSorted(a: nat, b: nat)
    requires a != b
    ensures var s := if a < b then [a, b] else [b, a]; StrictlySorted(s) && Elements(s) == {a} + {b}
  {
  }

  lemma {:induction false} ElementsIn(s: seq<nat>)
    ensures forall h :: h in Elements(s) <==> h in s
    ensures |s| == 0 ==> Elements(s) == {}
    ensures |s| == 1 ==> Elements(s) == {s[0]}
  {
  }

  lemma {:induction false} NextElement(s: seq<nat>, i: nat)
    requires i < |s|
    ensures Elements(s[..i + 1]) == Elements(s[..i]) + {s[i]}
  {
    assert s[..i + 1] == s[..i] + [s[i]];
  }

  lemma {:induction false} RegisterCount(p: Precision, hashes: set<nat>, registers: seq<nat>)
    requires RegistersOf(p, hashes, registers)
    ensures |registers| == Pow2(p)
  {
  }

  lemma {:induction false} DenseRegister(p: Precision, hashes: set<nat>, registers: seq<nat>, hash: nat)
    requires RegistersOf(p, hashes, registers) && IsHash(hash)
    ensures Index(p, hash) < |registers| && RegistersOf(p, hashes + {hash}, Updated(p, registers, hash))
  {
    hide Index, Rho, Pow2, IsRegister;
    IndexFits(p, hash);
    UpdateRegisters(p, hashes, registers, hash);
  }

  lemma {:induction false} DenseInsert(p: Precision, hashes: set<nat>, registers: seq<nat>, hash: nat)
    requires Canonical(p, hashes, Dense(registers)) && IsHash(hash)
    ensures Index(p, hash) < |registers| && Canonical(p, hashes + {hash}, Dense(Updated(p, registers, hash)))
  {
    hide RegistersOf, Updated;
    DenseRegister(p, hashes, registers, hash);
    SmallerSet(hashes, hashes + {hash});
  }
}
