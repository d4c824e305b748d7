/** Finite sums over sets of keys. */
module Sums {

  ghost function Sum<K(!new)>(s: set<K>, f: K -> int): int {
    if s == {} then 0
    else
      var k :| k in s;
      f(k) + Sum(s - {k}, f)
  }

  lemma {:induction false} SumRemove<K(!new)>(s: set<K>, f: K -> int, k: K)
    requires k in s
    ensures Sum(s, f) == f(k) + Sum(s - {k}, f)
  {
    var j :| j in s && Sum(s, f) == f(j) + Sum(s - {j}, f);
    if j != k {
      SumRemove(s - {j}, f, k);
      assert s - {j} - {k} == s - {k} - {j};
      SumRemove(s - {k}, f, j);
    }
  }

  lemma {:induction false} SumInsert<K(!new)>(s: set<K>, f: K -> int, k: K)
    requires k !in s
    ensures Sum(s + {k}, f) == f(k) + Sum(s, f)
  {
    SumRemove(s + {k}, f, k);
    assert s + {k} - {k} == s;
  }

  lemma {:induction false} SumSame<K(!new)>(s: set<K>, f: K -> int, g: K -> int)
    requires forall k :: k in s ==> f(k) == g(k)
    ensures Sum(s, f) == Sum(s, g)
  {
    if s != {} {
      var k :| k in s;
      SumRemove(s, f, k);
      SumRemove(s, g, k);
      SumSame(s - {k}, f, g);
    }
  }

  lemma {:induction false} SumMonotone<K(!new)>(s: set<K>, f: K -> int, g: K -> int)
    requires forall k :: k in s ==> f(k) <= g(k)
    ensures Sum(s, f) <= Sum(s, g)
  {
    if s != {} {
      var k :| k in s;
      SumRemove(s, f, k);
      SumRemove(s, g, k);
      SumMonotone(s - {k}, f, g);
    }
  }

  lemma {:induction false} SumAdd<K(!new)>(s: set<K>, f: K -> int, g: K -> int, h: K -> int)
    requires forall k :: k in s ==> h(k) == f(k) + g(k)
    ensures Sum(s, h) == Sum(s, f) + Sum(s, g)
  {
    if s != {} {
      var k :| k in s;
      SumRemove(s, f, k);
      SumRemove(s, g, k);
      SumRemove(s, h, k);
      SumAdd(s - {k}, f, g, h);
    }
  }

  lemma {:induction false} SumUnion<K(!new)>(a: set<K>, b: set<K>, f: K -> int)
    requires a !! b
    ensures Sum(a + b, f) == Sum(a, f) + Sum(b, f)
  {
    if a == {} {
      assert a + b == b;
    } else {
      var k :| k in a;
      SumRemove(a, f, k);
      SumRemove(a + b, f, k);
      assert a + b - {k} == a - {k} + b;
      SumUnion(a - {k}, b, f);
    }
  }

  lemma {:induction false} SumAtLeast<K(!new)>(s: set<K>, f: K -> int, low: int)
    requires forall k :: k in s ==> low <= f(k)
    ensures |s| * low <= Sum(s, f)
  {
    if s != {} {
      var k :| k in s;
      SumRemove(s, f, k);
      SumAtLeast(s - {k}, f, low);
      assert |s| == |s - {k}| + 1;
      assert (|s - {k}| + 1) * low == |s - {k}| * low + low;
    }
  }

  lemma {:induction false} SumAtMost<K(!new)>(s: set<K>, f: K -> int, high: int)
    requires forall k :: k in s ==> f(k) <= high
    ensures Sum(s, f) <= |s| * high
  {
    if s != {} {
      var k :| k in s;
      SumRemove(s, f, k);
      SumAtMost(s - {k}, f, high);
      assert |s| == |s - {k}| + 1;
      assert (|s - {k}| + 1) * high == |s - {k}| * high + high;
    }
  }

  lemma {:induction false} SumZero<K(!new)>(s: set<K>, f: K -> int)
    requires forall k :: k in s ==> f(k) == 0
    ensures Sum(s, f) == 0
  {
    SumAtLeast(s, f, 0);
    SumAtMost(s, f, 0);
  }

  lemma {:induction false} SumSubset<K(!new)>(a: set<K>, b: set<K>, f: K -> int)
    requires a <= b && forall k :: k in b ==> 0 <= f(k)
    ensures 0 <= Sum(a, f) <= Sum(b, f)
  {
    SumUnion(a, b - a, f);
    assert a + (b - a) == b;
    SumAtLeast(b - a, f, 0);
    SumAtLeast(a, f, 0);
  }
}
