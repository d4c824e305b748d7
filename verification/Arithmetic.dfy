/** The few facts about multiples and remainders the models rely on. */
module Arithmetic {

  lemma {:induction false} MulMonotone(a: int, b: int, s: nat)
    requires a <= b
    ensures a * s <= b * s
  {
    assert (b - a) * s >= 0;
    assert (b - a) * s == b * s - a * s;
  }

  lemma {:induction false} MulStrict(a: int, b: int, s: nat)
    requires a < b
    ensures a * s + s <= b * s
  {
    MulMonotone(a + 1, b, s);
    assert (a + 1) * s == a * s + s;
  }

  lemma {:induction false} MulSucc(k: int, s: int)
    ensures (k + 1) * s == k * s + s
  {
  }

  lemma {:induction false} MulAdd(j: int, k: int, s: int)
    ensures (j + k) * s == j * s + k * s
  {
  }

  lemma {:induction false} DivMod(x: nat, s: nat)
    requires 0 < s
    ensures x == x / s * s + x % s && 0 <= x % s < s
  {
  }

  /** Quotient and remainder are determined by the shape `q * s + r`. */
  lemma {:induction false} DivModUnique(q: nat, r: nat, s: nat)
    requires r < s
    ensures (q * s + r) / s == q && (q * s + r) % s == r
  {
    var x := q * s + r;
    DivMod(x, s);
    if x / s < q {
      MulStrict(x / s, q, s);
      assert false;
    }
    if q < x / s {
      MulStrict(q, x / s, s);
      assert false;
    }
  }

  lemma {:induction false} MultipleMod(k: nat, s: nat)
    requires 0 < s
    ensures k * s % s == 0
  {
    DivModUnique(k, 0, s);
  }

  lemma {:induction false} AlignDown(t: nat, s: nat)
    requires 0 < s
    ensures (t - t % s) % s == 0
  {
    DivMod(t, s);
    MultipleMod(t / s, s);
  }

  lemma {:induction false} AlignedStep(a: nat, s: nat)
    requires 0 < s && a % s == 0
    ensures (a + s) % s == 0
  {
    DivMod(a, s);
    assert (a / s + 1) * s == a / s * s + s;
    MultipleMod(a / s + 1, s);
  }

  /** Two aligned times that differ are at least one slide apart. */
  lemma {:induction false} AlignedGap(a: nat, b: nat, s: nat)
    requires 0 < s && a % s == 0 && b % s == 0 && a < b
    ensures a + s <= b
  {
    DivMod(a, s);
    DivMod(b, s);
    if b / s <= a / s {
      MulMonotone(b / s, a / s, s);
      assert false;
    }
    MulStrict(a / s, b / s, s);
  }

  /** The distance between two aligned times is a whole number of slides. */
  lemma {:induction false} AlignedDistance(a: nat, b: nat, s: nat)
    requires 0 < s && a % s == 0 && b % s == 0 && a <= b
    ensures (b - a) / s * s == b - a
  {
    DivMod(a, s);
    DivMod(b, s);
    if b / s < a / s {
      MulStrict(b / s, a / s, s);
      assert false;
    }
    assert (b / s - a / s) * s == b / s * s - a / s * s;
    DivModUnique(b / s - a / s, 0, s);
  }

  function Pow2(n: nat): (r: nat)
    ensures r > 0
  {
    if n == 0 then 1 else 2 * Pow2(n - 1)
  }

  lemma {:induction false} Twice(x: int, y: int)
    ensures x * (2 * y) == 2 * (x * y)
  {
  }

  lemma {:induction false} Pow2Adds(a: nat, b: nat)
    ensures Pow2(a + b) == Pow2(a) * Pow2(b)
    decreases b
  {
    if b > 0 {
      Pow2Adds(a, b - 1);
      Twice(Pow2(a), Pow2(b - 1));
    }
  }

  lemma {:induction false} Pow2Grows(a: nat, b: nat)
    requires a <= b
    ensures Pow2(a) <= Pow2(b)
  {
    if a < b {
      Pow2Grows(a, b - 1);
    }
  }
}
