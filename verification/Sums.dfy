/** Sums over finite maps, independent of the order in which a dictionary is walked. */
module Sums {
  ghost function Sum<K>(m: map<K, int>): int {
    if m == map[] then 0
    else
      var k :| k in m;
      m[k] + Sum(m - {k})
  }

  /** Any key may be taken out first. */
  lemma {:induction false} SumTake<K>(m: map<K, int>, k: K)
    requires k in m
    ensures Sum(m) == m[k] + Sum(m - {k})
    decreases |m|
  {
    var first :| first in m && Sum(m) == m[first] + Sum(m - {first});
    if first != k {
      var rest := m - {first};
      Shrinks(m, first);
      SumTake(rest, k);
      assert (m - {k})[first] == m[first];
      Shrinks(m, k);
      SumTake(m - {k}, first);
      assert rest - {k} == m - {k} - {first};
    }
  }

  lemma Shrinks<K>(m: map<K, int>, k: K)
    requires k in m
    ensures |m - {k}| < |m|
  {
    assert (m - {k}).Keys == m.Keys - {k};
  }

  lemma SumPut<K>(m: map<K, int>, k: K, v: int)
    ensures Sum(m[k := v]) == Sum(m) - (if k in m then m[k] else 0) + v
  {
    SumTake(m[k := v], k);
    assert m[k := v] - {k} == m - {k};
    if k in m {
      SumTake(m, k);
    } else {
      assert m - {k} == m;
    }
  }

  lemma SumEmpty<K>(m: map<K, int>)
    requires m.Keys == {}
    ensures Sum(m) == 0
  {
    assert m == map[];
  }

  lemma {:induction false} SumNonNegative<K>(m: map<K, int>)
    requires forall k :: k in m ==> m[k] >= 0
    ensures Sum(m) >= 0
    ensures Sum(m) == 0 ==> forall k :: k in m ==> m[k] == 0
    decreases |m|
  {
    if m != map[] {
      var k :| k in m && Sum(m) == m[k] + Sum(m - {k});
      Shrinks(m, k);
      SumNonNegative(m - {k});
      forall x | x in m && Sum(m) == 0
        ensures m[x] == 0
      {
        if x != k {
          assert (m - {k})[x] == m[x];
        }
      }
    }
  }

  // ---------- the same over reals ----------

  /** A product, kept closed where only its laws matter. */
  function Times(a: real, b: real): real {
    a * b
  }

  ghost function Total<K>(m: map<K, real>): real {
    if m == map[] then 0.0
    else
      var k :| k in m;
      m[k] + Total(m - {k})
  }

  lemma ShrinksReal<K>(m: map<K, real>, k: K)
    requires k in m
    ensures |m - {k}| < |m|
  {
    assert (m - {k}).Keys == m.Keys - {k};
  }

  lemma {:induction false} TotalTake<K>(m: map<K, real>, k: K)
    requires k in m
    ensures Total(m) == m[k] + Total(m - {k})
    decreases |m|
  {
    var first :| first in m && Total(m) == m[first] + Total(m - {first});
    if first != k {
      var rest := m - {first};
      ShrinksReal(m, first);
      TotalTake(rest, k);
      assert (m - {k})[first] == m[first];
      ShrinksReal(m, k);
      TotalTake(m - {k}, first);
      assert rest - {k} == m - {k} - {first};
    }
  }

  lemma TotalPut<K>(m: map<K, real>, k: K, v: real)
    ensures Total(m[k := v]) == Total(m) - (if k in m then m[k] else 0.0) + v
  {
    TotalTake(m[k := v], k);
    assert m[k := v] - {k} == m - {k};
    if k in m {
      TotalTake(m, k);
    } else {
      assert m - {k} == m;
    }
  }

  lemma {:induction false} TotalPositive<K>(m: map<K, real>)
    requires forall k :: k in m ==> m[k] > 0.0
    ensures Total(m) >= 0.0 && (m != map[] ==> Total(m) > 0.0)
    decreases |m|
  {
    if m != map[] {
      var k :| k in m && Total(m) == m[k] + Total(m - {k});
      ShrinksReal(m, k);
      TotalPositive(m - {k});
    }
  }

  ghost predicate Scaled<K>(m: map<K, real>, n: map<K, real>, c: real) {
    forall k :: k in m && k in n ==> n[k] == Times(c, m[k])
  }

  lemma {:induction false} TotalScaled<K>(m: map<K, real>, n: map<K, real>, c: real)
    requires m.Keys == n.Keys && Scaled(m, n, c)
    ensures Total(n) == Times(c, Total(m))
    decreases |m|
  {
    hide Times;
    if m == map[] {
      assert n == map[];
      TimesZero(c);
    } else {
      var k :| k in m && Total(m) == m[k] + Total(m - {k});
      var m0, n0 := m - {k}, n - {k};
      ShrinksReal(m, k);
      assert n0.Keys == m0.Keys && forall x :: x in m0 ==> m0[x] == m[x] && n0[x] == n[x];
      TotalScaled(m0, n0, c);
      TotalTake(n, k);
      Distribute(c, m[k], Total(m0));
    }
  }

  lemma Distribute(c: real, a: real, b: real)
    ensures Times(c, a + b) == Times(c, a) + Times(c, b)
  {
  }

  lemma TimesZero(c: real)
    ensures Times(c, 0.0) == 0.0
  {
  }
}
