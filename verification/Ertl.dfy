/** Ertl's improved raw estimator over real numbers, and a run of a keyed map that it
    misleads. */
module Ertl {
  import opened Arithmetic
  import opened HllMapRuns
  import opened HllMapSpec
  import opened HllSpec

  const ALPHA_INFINITY: real := 0.7213475204444817

  function Count(registers: seq<nat>, r: nat): nat {
    multiset(registers)[r]
  }

  /** The correction for empty registers, after so many rounds of its loop. */
  function Sigma(x: real, z: real, scale: real, rounds: nat): real
    decreases rounds
  {
    if rounds == 0 then z else Sigma(Square(x), z + Gain(x, scale), scale + scale, rounds - 1)
  }

  function Square(x: real): real {
    x * x
  }

  function Gain(x: real, scale: real): real {
    x * x * scale
  }

  /** The loop over the ranks, from `rank` down. */
  function Halved(registers: seq<nat>, rank: nat, denominator: real): real {
    if rank == 0 then denominator
    else Halved(registers, rank - 1, 0.5 * (denominator + Count(registers, rank) as real))
  }

  /** `rounds` is how long the loop of `Sigma` runs, and `tau` the correction for
      saturated registers. */
  datatype Formula = Formula(precision: Precision, rounds: nat, tau: real -> real) {
    function Denominator(registers: seq<nat>): real
      requires registers != []
    {
      var m, q := |registers| as real, HASH_BITS - precision;
      Halved(registers, q, m * tau(1.0 - Count(registers, q + 1) as real / m))
      + m * Sigma(Count(registers, 0) as real / m, Count(registers, 0) as real / m, 1.0, rounds)
    }

    /** Zero where the correction for empty registers is infinite. */
    function Estimate(registers: seq<nat>): real {
      if registers == [] || Count(registers, 0) == |registers| || Denominator(registers) == 0.0 then 0.0
      else ALPHA_INFINITY * |registers| as real * |registers| as real / Denominator(registers)
    }

    function AsEstimator(): Estimator {
      Estimator(precision, registers => Estimate(registers))
    }
  }

  // --- one occupied register of 64 ---

  lemma {:induction false} SquareGrows(a: real, x: real)
    requires 0.0 <= a <= x
    ensures 0.0 <= Square(a) <= Square(x)
  {
    assert x * x - a * a == (x - a) * (x + a);
  }

  lemma {:induction false} ScaledGrows(a: real, x: real, scale: real)
    requires 0.0 <= scale && a <= x
    ensures a * scale <= x * scale
  {
    assert x * scale - a * scale == (x - a) * scale;
  }

  lemma {:induction false} GainGrows(a: real, x: real, scale: real)
    requires 0.0 <= a <= x && 0.0 <= scale
    ensures 0.0 <= Gain(a, scale) <= Gain(x, scale)
  {
    SquareGrows(a, x);
    ScaledGrows(0.0, a * a, scale);
    ScaledGrows(a * a, x * x, scale);
  }

  /** More rounds and larger arguments only add. */
  lemma {:induction false} SigmaGrows(a: real, b: real, scale: real, few: nat, x: real, z: real, many: nat)
    requires 0.0 <= a <= x && b <= z && 0.0 <= scale && few <= many
    ensures Sigma(a, b, scale, few) <= Sigma(x, z, scale, many)
    decreases many
  {
    hide Square, Gain;
    if many > 0 {
      SquareGrows(a, x);
      GainGrows(a, x, scale);
      if few > 0 {
        SigmaGrows(Square(a), b + Gain(a, scale), scale + scale, few - 1, Square(x), z + Gain(x, scale), many - 1);
      } else {
        SigmaGrows(Square(a), b, scale + scale, 0, Square(x), z + Gain(x, scale), many - 1);
      }
    }
  }

  lemma {:induction false} SixRounds(rounds: nat)
    requires 6 <= rounds
    ensures 24.0 <= Sigma(63.0 / 64.0, 63.0 / 64.0, 1.0, rounds)
  {
    SigmaGrows(0.984, 0.984, 1.0, 6, 63.0 / 64.0, 63.0 / 64.0, rounds);
    OneRound(0.984, 0.984, 1.0, 6, 0.968, 1.952);
    OneRound(0.968, 1.952, 2.0, 5, 0.937, 3.826);
    OneRound(0.937, 3.826, 4.0, 4, 0.877, 7.334);
    OneRound(0.877, 7.334, 8.0, 3, 0.769, 13.486);
    OneRound(0.769, 13.486, 16.0, 2, 0.591, 22.942);
    OneRound(0.591, 22.942, 32.0, 1, 0.349, 34.11);
    assert Sigma(0.349, 34.11, 64.0, 0) == 34.11;
  }

  lemma {:induction false} OneRound(x: real, z: real, scale: real, rounds: nat, y: real, w: real)
    requires 0.0 <= y <= Square(x) && w <= z + Gain(x, scale) && 0.0 <= scale && 0 < rounds
    ensures Sigma(y, w, scale + scale, rounds - 1) <= Sigma(x, z, scale, rounds)
  {
    hide Square, Gain;
    SigmaGrows(y, w, scale + scale, rounds - 1, Square(x), z + Gain(x, scale), rounds - 1);
  }

  lemma {:induction false} HalvedNonnegative(registers: seq<nat>, rank: nat, denominator: real)
    requires 0.0 <= denominator
    ensures 0.0 <= Halved(registers, rank, denominator)
  {
    if rank > 0 {
      HalvedNonnegative(registers, rank - 1, 0.5 * (denominator + Count(registers, rank) as real));
    }
  }

  /** `r` in the first register, and nothing in the others. */
  ghost predicate OnlyFirst(registers: seq<nat>, r: nat) {
    |registers| == 64 && registers[0] == r && forall i :: 1 <= i < 64 ==> registers[i] == 0
  }

  lemma {:induction false} Zeros(s: seq<nat>, v: nat)
    requires forall i :: 0 <= i < |s| ==> s[i] == 0
    ensures multiset(s)[v] == if v == 0 then |s| else 0
  {
    if s != [] {
      Zeros(s[1..], v);
      assert s == [s[0]] + s[1..];
    }
  }

  lemma {:induction false} CountsOfOne(registers: seq<nat>, r: nat, v: nat)
    requires OnlyFirst(registers, r) && 0 < r
    ensures Count(registers, v) == if v == 0 then 63 else if v == r then 1 else 0
  {
    assert registers == [registers[0]] + registers[1..];
    Zeros(registers[1..], v);
  }

  lemma {:induction false} Quotient(a: real, d: real)
    requires 0.0 < d && a < 2.0 * d
    ensures a / d < 2.0
  {
    if 2.0 <= a / d {
      ScaledGrows(2.0, a / d, d);
      assert false;
    }
  }

  /** With one of 64 registers occupied, unsaturated, the estimate is less than two. */
  lemma {:induction false} OneOccupied(f: Formula, registers: seq<nat>, r: nat)
    requires f.precision == 6 && 6 <= f.rounds && f.tau(1.0) == 0.0
    requires OnlyFirst(registers, r) && 0 < r <= 58
    ensures f.Estimate(registers) < 2.0
  {
    hide Sigma, Halved, Count;
    CountsOfOne(registers, r, 0);
    CountsOfOne(registers, r, 59);
    assert 1.0 - 0 as real / 64.0 == 1.0;
    HalvedNonnegative(registers, 58, 0.0);
    SixRounds(f.rounds);
    var d := f.Denominator(registers);
    assert 64.0 * 24.0 <= d;
    Quotient(ALPHA_INFINITY * 64.0 * 64.0, d);
  }

  // --- three hashes in one register ---

  lemma {:induction false} SmallHash(h: nat)
    requires 1 <= h <= 3
    ensures IsHash(h) && Index(6, h) == 0 && Rho(6, h) == if h == 1 then 58 else 57
  {
    hide Rho, Pow2;
    SmallPowers();
    Pow2Grows(2, 58);
    Pow2Grows(2, 64);
    DivModUnique(0, h, Pow2(58));
    RhoMeaning(6, h);
    var r := Rho(6, h);
    if r < 57 {
      Pow2Grows(2, 58 - r);
      assert false;
    }
  }

  lemma {:induction false} SmallPowers()
    ensures Pow2(0) == 1 && Pow2(1) == 2 && Pow2(2) == 4 && Pow2(6) == 64
  {
    assert Pow2(6) == 2 * Pow2(5) && Pow2(4) == 2 * Pow2(3);
  }

  lemma {:induction false} ThreeHashes()
    ensures AreHashes({1, 2, 3}) && OnlyFirst(Registers(6, {1, 2, 3}), 58)
  {
    hide Index, Rho, Pow2, IsHash;
    SmallHash(1);
    SmallHash(2);
    SmallHash(3);
    SmallPowers();
    var registers := Registers(6, {1, 2, 3});
    RegistersAre(6, {1, 2, 3});
    forall i | 0 <= i < 64
      ensures registers[i] == if i == 0 then 58 else 0
    {
      assert IsRegister(6, {1, 2, 3}, i, registers[i]);
    }
  }

  /** Three hashes are estimated as fewer than two of them. */
  lemma {:induction false} ThreeAreFewer(f: Formula)
    requires f.precision == 6 && 6 <= f.rounds && f.tau(1.0) == 0.0
    ensures f.AsEstimator().Cardinality({1, 2, 3}) < 2.0 == f.AsEstimator().Cardinality({1, 2})
  {
    hide Registers, f.Estimate, Pow2;
    SmallPowers();
    assert SparseLimit(6) == 2;
    ThreeHashes();
    OneOccupied(f, Registers(6, {1, 2, 3}), 58);
    assert |{1, 2, 3}| == 3 && |{1, 2}| == 2;
  }

  /** So at precision 6 the code's own estimate is not monotone, and a run of inserts
      leads to a wrong eviction, however many rounds from six on its loop runs. */
  lemma {:induction false} ErtlEvictsWrongKey(f: Formula) returns (items: seq<Item>, slots: Slots)
    requires f.precision == 6 && 6 <= f.rounds && f.tau(1.0) == 0.0
    ensures !f.AsEstimator().Monotone() && !AlwaysEvictsLeast(f.AsEstimator())
    ensures Reaches(f.AsEstimator(), 2, items, slots) && GoesWrong(f.AsEstimator(), slots)
  {
    hide Reaches, GoesWrong, AlwaysEvictsLeast, f.AsEstimator;
    ThreeAreFewer(f);
    ThreeHashes();
    var e := f.AsEstimator();
    assert {1, 2} <= {1, 2, 3};
    items, slots := DropGoesWrong(e, {1, 2}, {1, 2, 3});
    assert !(e.Cardinality({1, 2}) <= e.Cardinality({1, 2, 3}));
    EvictsLeastExactlyWhenMonotone(e);
  }
}
