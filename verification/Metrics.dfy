/** The partition scores of `eval/metrics.py`, proved against the pairs they are about. */
module Metrics {
  import opened Wrappers
  import opened Sums
  import opened Pairs

  // ---------- the counters ----------

  /** `_contingency`. */
  method Contingency<P(==), T(==)>(pred: seq<P>, truth: seq<T>) returns (table: map<(P, T), int>)
    requires |pred| == |truth|
    ensures table == Count(Zip(pred, truth))
  {
    table := map[];
    ghost var zip := Zip(pred, truth);
    hide Count;
    CountNone<(P, T)>();
    for i := 0 to |pred|
      invariant table == Count(zip[..i])
    {
      var key := (pred[i], truth[i]);
      assert zip[..i + 1] == zip[..i] + [key];
      CountGrows(zip[..i], key);
      table := table[key := (if key in table then table[key] else 0) + 1];
    }
    assert zip[..|pred|] == zip;
  }

  ghost function Image<K, L>(ks: set<K>, proj: K -> L): set<L> {
    set k | k in ks :: proj(k)
  }

  /** `sizes` adds up the entries `seen` of a table along `proj`. */
  ghost predicate AddsUp<K, L(!new)>(sizes: map<L, int>, seen: map<K, int>, proj: K -> L) {
    && sizes.Keys == Image(seen.Keys, proj)
    && forall l :: Mass(seen, proj, l) == if l in sizes then sizes[l] else 0
  }

  lemma AddsUpNone<K, L(!new)>(proj: K -> L)
    ensures AddsUp(map[], map[], proj)
  {
    var none: map<K, int> := map[];
    forall l
      ensures Mass(none, proj, l) == 0
    {
      SumEmpty(map k | k in none && proj(k) == l :: 0);
    }
  }

  lemma AddsUpMore<K, L(!new)>(sizes: map<L, int>, seen: map<K, int>, proj: K -> L, k: K, n: int)
    requires AddsUp(sizes, seen, proj) && k !in seen
    ensures var l := proj(k);
            AddsUp(sizes[l := (if l in sizes then sizes[l] else 0) + n], seen[k := n], proj)
  {
    assert Image(seen[k := n].Keys, proj) == Image(seen.Keys, proj) + {proj(k)};
    forall l
      ensures Mass(seen[k := n], proj, l) == Mass(seen, proj, l) + if proj(k) == l then n else 0
    {
      MassPut(seen, proj, l, k, n);
    }
  }

  lemma AddsUpAll<K, L(!new)>(sizes: map<L, int>, s: seq<K>, labels: seq<L>, proj: K -> L)
    requires AddsUp(sizes, Count(s), proj)
    requires |labels| == |s| && forall i :: 0 <= i < |s| ==> labels[i] == proj(s[i])
    ensures sizes == Count(labels)
  {
    forall l
      ensures l in sizes <==> l in labels
      ensures l in sizes ==> sizes[l] == multiset(labels)[l]
    {
      MassCounts(s, labels, proj, l);
      if k :| k in s && proj(k) == l {
        var i :| 0 <= i < |s| && s[i] == k;
        assert labels[i] == l;
      }
      if l in labels {
        var i :| 0 <= i < |labels| && labels[i] == l;
        assert s[i] in Count(s).Keys && proj(s[i]) == l;
      }
    }
  }

  /** The label counts of one side of the table. */
  method Sizes<K(==), L(==, !new)>(table: map<K, int>, proj: K -> L, ghost s: seq<K>, ghost labels: seq<L>)
    returns (sizes: map<L, int>)
    requires table == Count(s) && |labels| == |s| && forall i :: 0 <= i < |s| ==> labels[i] == proj(s[i])
    ensures sizes == Count(labels)
  {
    hide AddsUp, Count;
    sizes := map[];
    var left := table.Keys;
    ghost var seen: map<K, int> := map[];
    AddsUpNone(proj);
    while left != {}
      invariant left !! seen.Keys && left + seen.Keys == table.Keys
      invariant forall k :: k in seen ==> seen[k] == table[k]
      invariant AddsUp(sizes, seen, proj)
      decreases left
    {
      var k :| k in left;
      AddsUpMore(sizes, seen, proj, k, table[k]);
      var l := proj(k);
      sizes := sizes[l := (if l in sizes then sizes[l] else 0) + table[k]];
      left, seen := left - {k}, seen[k := table[k]];
    }
    assert seen == table;
    AddsUpAll(sizes, s, labels, proj);
  }

  /** `sum(_comb2(n) for n in counts.values())`. */
  method SumComb2<K(==)>(counts: map<K, int>) returns (total: int)
    ensures total == Sum(Combs(counts))
  {
    total := 0;
    var left := counts.Keys;
    ghost var seen: map<K, int> := map[];
    while left != {}
      invariant left !! seen.Keys && left + seen.Keys == counts.Keys
      invariant forall k :: k in seen ==> seen[k] == Comb2(counts[k])
      invariant total == Sum(seen)
      decreases left
    {
      var k :| k in left;
      SumPut(seen, k, Comb2(counts[k]));
      total := total + Comb2(counts[k]);
      left, seen := left - {k}, seen[k := Comb2(counts[k])];
    }
    assert seen == Combs(counts);
  }

  /** The three pair counts every score is made of. */
  method PairCounts<P(==, !new), T(==, !new)>(pred: seq<P>, truth: seq<T>)
    returns (both: nat, samePred: nat, sameTruth: nat)
    requires |pred| == |truth|
    ensures both == |Together(pred) * Together(truth)|
    ensures samePred == |Together(pred)| && sameTruth == |Together(truth)|
  {
    var table := Contingency(pred, truth);
    var predSizes := Sizes(table, (k: (P, T)) => k.0, Zip(pred, truth), pred);
    var truthSizes := Sizes(table, (k: (P, T)) => k.1, Zip(pred, truth), truth);
    PairsCounted(Zip(pred, truth));
    PairsCounted(pred);
    PairsCounted(truth);
    ZipTogether(pred, truth);
    both := SumComb2(table);
    samePred := SumComb2(predSizes);
    sameTruth := SumComb2(truthSizes);
  }

  // ---------- F1 ----------

  /** The F1 of two sets of pairs: twice what they share over what they hold. */
  ghost function Dice<X>(a: set<X>, b: set<X>): real {
    if |a| + |b| == 0 then 1.0 else 2.0 * |a * b| as real / (|a| + |b|) as real
  }

  /** Comparing a quotient is comparing its terms. */
  lemma Quotient(q: real, y: real)
    requires y > 0.0
    ensures (q < 0.0 ==> q * y < 0.0) && (q > 0.0 ==> q * y > 0.0)
    ensures (q < 1.0 ==> q * y < y) && (q > 1.0 ==> q * y > y)
  {
  }

  lemma Swap(p: real, q: real, a: real)
    ensures (p * q) * a == (p * a) * q
  {
  }

  lemma HarmonicTerms(p: real, q: real, both: real, a: real, b: real)
    requires p * a == both && q * b == both
    ensures (2.0 * p * q) * (a + b) == (2.0 * both) * (p + q)
  {
    Swap(p, q, a);
    Swap(q, p, b);
    var x := p * q;
    assert x * (a + b) == x * a + x * b;
    assert x * a == both * q && x * b == both * p;
    assert 2.0 * p * q == 2.0 * x;
    assert (2.0 * x) * (a + b) == 2.0 * (x * (a + b));
  }

  lemma HarmonicMean(p: real, q: real, both: real, a: real, b: real)
    requires both > 0.0 && a > 0.0 && b > 0.0 && p * a == both && q * b == both
    ensures p + q > 0.0
    ensures 2.0 * p * q / (p + q) == 2.0 * both / (a + b)
  {
    Quotient(p, a);
    Quotient(q, b);
    HarmonicTerms(p, q, both, a, b);
    CrossDivide(2.0 * p * q, p + q, 2.0 * both, a + b);
  }

  lemma CrossDivide(x: real, y: real, z: real, w: real)
    requires y > 0.0 && w > 0.0 && x * w == z * y
    ensures x / y == z / w
  {
    var q := x / y;
    assert q * y == x;
    Swap(q, w, y);
    assert (q * w) * y == z * y;
    Cancel(q * w, z, y);
  }

  lemma Cancel(x: real, z: real, y: real)
    requires y > 0.0 && x * y == z * y
    ensures x == z
  {
    assert (x - z) * y == 0.0;
  }

  function Rate(part: nat, whole: nat): real {
    if whole != 0 then part as real / whole as real else 0.0
  }

  lemma RateTimes(part: nat, whole: nat)
    requires whole > 0
    ensures Rate(part, whole) * whole as real == part as real
  {
  }

  /** The harmonic mean of precision and recall, 0 when there is neither. */
  function Harmonic(p: real, r: real): real {
    if p + r == 0.0 then 0.0 else 2.0 * p * r / (p + r)
  }

  /** Precision and recall combine to twice the shared pairs over all pairs. */
  lemma FromCounts(both: nat, a: nat, b: nat)
    requires both <= a && both <= b && a + b > 0
    ensures Harmonic(Rate(both, a), Rate(both, b)) == 2.0 * both as real / (a + b) as real
  {
    if both == 0 {
      assert Rate(both, a) == 0.0 && Rate(both, b) == 0.0;
    } else {
      RateTimes(both, a);
      RateTimes(both, b);
      HarmonicMean(Rate(both, a), Rate(both, b), both as real, a as real, b as real);
      assert a as real + b as real == (a + b) as real;
    }
  }

  /** `pairwise_f1`, with the strict zip's `ValueError` as `None`: the F1 of the enumeration of all
      pairs on the question "same situation?". */
  method PairwiseF1<P(==, !new), T(==, !new)>(pred: seq<P>, truth: seq<T>) returns (f1: Option<real>)
    ensures |pred| < 2 ==> f1 == Some(1.0)
    ensures |pred| >= 2 && |truth| != |pred| ==> f1 == None
    ensures |pred| >= 2 && |truth| == |pred| ==> f1 == Some(Dice(Together(pred), Together(truth)))
  {
    if |pred| < 2 {
      return Some(1.0);
    }
    if |pred| != |truth| {
      return None;
    }
    var both, samePred, sameTruth := PairCounts(pred, truth);
    if samePred == 0 && sameTruth == 0 {
      return Some(1.0);
    }
    Included(Together(pred) * Together(truth), Together(pred));
    Included(Together(pred) * Together(truth), Together(truth));
    FromCounts(both, samePred, sameTruth);
    var precision := Rate(both, samePred);
    var recall := Rate(both, sameTruth);
    return Some(Harmonic(precision, recall));
  }

  lemma DivideBound(x: real, y: real)
    requires y > 0.0 && 0.0 <= x
    ensures 0.0 <= x / y && (x <= y ==> x / y <= 1.0) && (x / y == 1.0 <==> x == y)
  {
    assert (x / y) * y == x;
    Quotient(x / y, y);
  }

  /** F1 lies between 0 and 1, and is 1 exactly when the same pairs are put together. */
  lemma DiceBounds<X>(a: set<X>, b: set<X>)
    ensures 0.0 <= Dice(a, b) <= 1.0
    ensures Dice(a, b) == 1.0 <==> a == b
    ensures Dice(a, b) == Dice(b, a)
  {
    Included(a * b, a);
    Included(a * b, b);
    assert a * b == b * a;
    if |a| + |b| == 0 {
      assert a == {} && b == {};
    } else {
      DivideBound(2.0 * |a * b| as real, (|a| + |b|) as real);
      if 2 * |a * b| == |a| + |b| {
        assert a * b == a && a * b == b;
      }
      if a == b {
        assert a * b == a;
      }
    }
  }

  /** Of `p` and `q` pairs, and `c` in both, `r` is `2 c / (p + q)` multiplied out, and 1 where that has no value. */
  ghost predicate Shares(r: real, p: nat, q: nat, c: nat) {
    && r * (p + q) as real == 2.0 * c as real
    && (p + q == 0 ==> r == 1.0)
  }

  /** F1 told from the pairs put together. */
  lemma DiceTells<X>(a: set<X>, b: set<X>)
    ensures Shares(Dice(a, b), |a|, |b|, |a * b|)
  {
    if |a| + |b| > 0 {
      Multiplied(Dice(a, b), 2.0 * |a * b| as real, (|a| + |b|) as real);
    } else {
      Included(a * b, a);
    }
  }

  lemma Multiplied(q: real, x: real, y: real)
    requires y > 0.0 && q == x / y
    ensures q * y == x
  {
  }

  // ---------- the adjusted Rand index ----------

  ghost function Expected(a: int, b: int, total: int): real {
    if total != 0 then (a * b) as real / total as real else 0.0
  }

  ghost function MaxIndex(a: int, b: int): real {
    0.5 * (a + b) as real
  }

  /** Agreement corrected for chance, over the sets of pairs put together. */
  ghost function Rand(a: set<(nat, nat)>, b: set<(nat, nat)>, n: nat): real {
    var expected := Expected(|a|, |b|, |AllPairs(n)|);
    var top := MaxIndex(|a|, |b|);
    if top == expected then 1.0 else (|a * b| as real - expected) / (top - expected)
  }

  /** With `p` and `q` pairs out of `t` put together and `c` by both, `r` is
      `(c - pq / t) / ((p + q) / 2 - pq / t)` multiplied out, and 1 where that has no value. */
  ghost predicate Corrected(r: real, t: real, p: real, q: real, c: real) {
    && (t * (p + q) == 2.0 * (p * q) ==> r == 1.0)
    && (t * (p + q) != 2.0 * (p * q) ==> r * (t * (p + q) - 2.0 * (p * q)) == 2.0 * (t * c - p * q))
  }

  /** The index told from the pairs put together, out of `n (n - 1) / 2`. */
  lemma RandTells(a: set<(nat, nat)>, b: set<(nat, nat)>, n: nat)
    requires n >= 2
    ensures Corrected(Rand(a, b, n), (n * (n - 1) / 2) as real, |a| as real, |b| as real, |a * b| as real)
  {
    hide AllPairs, Corrected, Rand;
    AllPairsCounted(n);
    SomePairs(n);
    RandOver(a, b, n);
  }

  lemma RandOver(a: set<(nat, nat)>, b: set<(nat, nat)>, n: nat)
    requires n >= 2
    ensures Corrected(Rand(a, b, n), |AllPairs(n)| as real, |a| as real, |b| as real, |a * b| as real)
  {
    hide AllPairs, Corrected, Rand;
    AllPairsCounted(n);
    SomePairs(n);
    RandIs(a, b, n);
    IndexTells(|AllPairs(n)| as real, |a| as real, |b| as real, |a * b| as real, Rand(a, b, n));
  }

  lemma SomePairs(n: nat)
    requires n >= 2
    ensures Comb2(n) == n * (n - 1) / 2 >= 1
  {
    assert n * (n - 1) >= 2;
  }

  lemma AsReals(x: nat, y: nat)
    ensures (x * y) as real == x as real * y as real && (x + y) as real == x as real + y as real
  {
  }

  lemma RandIs(a: set<(nat, nat)>, b: set<(nat, nat)>, n: nat)
    requires |AllPairs(n)| > 0
    ensures Rand(a, b, n) == Index(|AllPairs(n)| as real, |a| as real, |b| as real, |a * b| as real)
  {
    hide AllPairs;
    AsReals(|a|, |b|);
  }

  /** Agreement `c` corrected for chance, of `p` and `q` pairs out of `t`. */
  function Index(t: real, p: real, q: real, c: real): real
    requires t > 0.0
  {
    var e, m := (p * q) / t, 0.5 * (p + q);
    if m == e then 1.0 else (c - e) / (m - e)
  }

  lemma IndexTells(t: real, p: real, q: real, c: real, r: real)
    requires t > 0.0 && r == Index(t, p, q, c)
    ensures Corrected(r, t, p, q, c)
  {
    var e, m := (p * q) / t, 0.5 * (p + q);
    ClearQuotient(t, p, q, e, m);
    if m != e {
      ClearIndex(r, c, e, m, t);
    }
  }

  lemma ClearQuotient(t: real, p: real, q: real, e: real, m: real)
    requires t > 0.0 && e == (p * q) / t && m == 0.5 * (p + q)
    ensures t * (2.0 * e) == 2.0 * (p * q) && t * (2.0 * m) == t * (p + q)
    ensures m == e <==> t * (p + q) == 2.0 * (p * q)
  {
    assert e * t == p * q;
    if t * (p + q) == 2.0 * (p * q) {
      assert (m - e) * t == 0.0;
    }
  }

  lemma ClearIndex(r: real, c: real, e: real, m: real, t: real)
    requires m != e && r == (c - e) / (m - e)
    ensures r * (t * (2.0 * m) - t * (2.0 * e)) == 2.0 * (t * c) - t * (2.0 * e)
  {
    assert r * (m - e) == c - e;
    assert r * (t * (2.0 * m) - t * (2.0 * e)) == (r * (m - e)) * (2.0 * t);
  }

  /** `adjusted_rand_index`. */
  method AdjustedRandIndex<P(==, !new), T(==, !new)>(pred: seq<P>, truth: seq<T>) returns (ari: Option<real>)
    ensures |pred| < 2 ==> ari == Some(1.0)
    ensures |pred| >= 2 && |truth| != |pred| ==> ari == None
    ensures |pred| >= 2 && |truth| == |pred| ==>
              ari == Some(Rand(Together(pred), Together(truth), |pred|))
  {
    hide Together, AllPairs;
    var n := |pred|;
    if n < 2 {
      return Some(1.0);
    }
    if |pred| != |truth| {
      return None;
    }
    var index, sumA, sumB := PairCounts(pred, truth);
    AllPairsCounted(n);
    var total := Comb2(n);
    var expected := if total != 0 then (sumA * sumB) as real / total as real else 0.0;
    var maxIndex := 0.5 * (sumA + sumB) as real;
    if maxIndex == expected {
      return Some(1.0);
    }
    return Some((index as real - expected) / (maxIndex - expected));
  }

  lemma GapOverTotal(a: real, b: real, t: real, e: real)
    requires 0.0 <= a <= t && 0.0 <= b <= t && t > 0.0 && e * t == a * b
    ensures 0.5 * (a + b) >= e
    ensures 0.5 * (a + b) == e <==> (a == 0.0 && b == 0.0) || (a == t && b == t)
  {
    var d := 2.0 * (0.5 * (a + b) - e);
    assert a * (t - b) >= 0.0 && b * (t - a) >= 0.0;
    assert d * t == a * (t - b) + b * (t - a);
    Quotient(d, t);
    if d == 0.0 {
      assert a * (t - b) == 0.0 && b * (t - a) == 0.0;
      assert a == 0.0 || t - b == 0.0;
    }
  }

  /** The best possible index is never below the expected one, and equals it only when both
      partitions are all singletons or both are all together. */
  lemma MaxAboveExpected(a: int, b: int, total: int)
    requires 0 <= a <= total && 0 <= b <= total && total > 0
    ensures MaxIndex(a, b) >= Expected(a, b, total)
    ensures MaxIndex(a, b) == Expected(a, b, total) <==> (a == 0 && b == 0) || (a == total && b == total)
  {
    assert (a + b) as real == a as real + b as real;
    assert (a * b) as real == a as real * b as real;
    GapOverTotal(a as real, b as real, total as real, Expected(a, b, total));
  }

  /** The adjusted Rand index is at most 1 and reaches it only for identical partitions; its
      denominator is positive whenever it is divided by, and it is divided by except when both
      partitions are degenerate in the same way. */
  lemma RandBounds(a: set<(nat, nat)>, b: set<(nat, nat)>, n: nat)
    requires n >= 2 && a <= AllPairs(n) && b <= AllPairs(n)
    ensures Rand(a, b, n) <= 1.0
    ensures Rand(a, b, n) == 1.0 <==> a == b
    ensures MaxIndex(|a|, |b|) - Expected(|a|, |b|, |AllPairs(n)|) >= 0.0
    ensures MaxIndex(|a|, |b|) == Expected(|a|, |b|, |AllPairs(n)|) <==>
              (a == {} && b == {}) || (a == AllPairs(n) && b == AllPairs(n))
  {
    Included(a, AllPairs(n));
    Included(b, AllPairs(n));
    assert (0, 1) in AllPairs(n);
    MaxAboveExpected(|a|, |b|, |AllPairs(n)|);
    Included(a * b, a);
    Included(a * b, b);
    var expected := Expected(|a|, |b|, |AllPairs(n)|);
    var top := MaxIndex(|a|, |b|);
    if top > expected {
      RatioBelowOne(|a * b| as real - expected, top - expected);
      if 2 * |a * b| == |a| + |b| {
        assert a * b == a && a * b == b;
      }
      if a == b {
        assert a * b == a;
      }
    }
  }

  lemma RatioBelowOne(x: real, y: real)
    requires y > 0.0 && x <= y
    ensures x / y <= 1.0 && (x / y == 1.0 <==> x == y)
  {
    assert (x / y) * y == x;
    Quotient(x / y, y);
  }

  lemma FourProducts(a: int, b: int)
    ensures 4 * (a * b) <= (a + b) * (a + b)
    ensures 4 * (a * b) == (a + b) * (a + b) ==> a == b
  {
    var d := a - b;
    assert (a + b) * (a + b) == 4 * (a * b) + d * d;
    Scaled(if d < 0 then -d else d, 0, if d < 0 then -d else d);
  }

  lemma Scaled(k: int, x: int, y: int)
    requires k >= 0 && x <= y
    ensures k * x <= k * y && (k * x == k * y <==> k == 0 || x == y)
  {
  }

  lemma SumWithin(s: int, both: int, t: int)
    requires 0 <= s <= t && both >= 0
    ensures t * (2 * both + s) >= s * s
    ensures t * (2 * both + s) == s * s && t > 0 ==> both == 0 && (s == 0 || s == t)
  {
    Scaled(t, s, 2 * both + s);
    Scaled(s, s, t);
    assert t * s == s * t;
  }

  lemma SumBeyond(s: int, both: int, t: int)
    requires t < s <= 2 * t && both >= s - t
    ensures t * (2 * both + s) >= s * s
    ensures t * (2 * both + s) == s * s ==> both == t && s == 2 * t
  {
    Scaled(t, 3 * s - 2 * t, 2 * both + s);
    assert t * (3 * s - 2 * t) - s * s == (s - t) * (2 * t - s);
    Scaled(s - t, 0, 2 * t - s);
  }

  /** Twice the expected agreement is never more than what there is and the best there could be. */
  lemma TwiceExpected(a: int, b: int, both: int, t: int)
    requires 0 <= a <= t && 0 <= b <= t && both >= 0 && both >= a + b - t
    ensures t * (2 * both + (a + b)) >= 4 * (a * b)
    ensures t * (2 * both + (a + b)) == 4 * (a * b) && t > 0 ==>
              a == b && ((both == 0 && (a == 0 || 2 * a == t)) || (both == t && a == t))
  {
    var s := a + b;
    FourProducts(a, b);
    if s <= t {
      SumWithin(s, both, t);
    } else {
      SumBeyond(s, both, t);
    }
  }

  /** The index is at least -1, and is -1 only of two halves of all pairs with nothing in common. */
  lemma RandLower(a: set<(nat, nat)>, b: set<(nat, nat)>, n: nat)
    requires n >= 2 && a <= AllPairs(n) && b <= AllPairs(n)
    ensures Rand(a, b, n) >= -1.0
    ensures Rand(a, b, n) == -1.0 <==> a * b == {} && a + b == AllPairs(n) && |a| == |b|
  {
    var t, both := |AllPairs(n)|, |a * b|;
    Included(a, AllPairs(n));
    Included(b, AllPairs(n));
    Included(a + b, AllPairs(n));
    assert (0, 1) in AllPairs(n);
    assert |a + b| == |a| + |b| - both;
    MaxAboveExpected(|a|, |b|, t);
    TwiceExpected(|a|, |b|, both, t);
    var expected, top := Expected(|a|, |b|, t), MaxIndex(|a|, |b|);
    if top > expected {
      TwiceAsReals(|a|, |b|, both, t);
      RatioAboveMinusOne(both as real - expected, top - expected);
    }
  }

  lemma TwiceAsReals(a: int, b: int, both: int, t: int)
    requires t > 0 && t * (2 * both + (a + b)) >= 4 * (a * b)
    ensures both as real + MaxIndex(a, b) >= 2.0 * Expected(a, b, t)
    ensures both as real + MaxIndex(a, b) == 2.0 * Expected(a, b, t) <==> t * (2 * both + (a + b)) == 4 * (a * b)
  {
    var e, x, y := Expected(a, b, t), t as real, (2 * both + (a + b)) as real;
    assert e * x == (a * b) as real;
    assert x * y == (t * (2 * both + (a + b))) as real;
    assert y == 2.0 * (both as real + MaxIndex(a, b));
    assert x * (y - 4.0 * e) == x * y - 4.0 * (e * x);
    Quotient(y - 4.0 * e, x);
  }

  lemma RatioAboveMinusOne(x: real, y: real)
    requires y > 0.0 && x + y >= 0.0
    ensures x / y >= -1.0 && (x / y == -1.0 <==> x + y == 0.0)
  {
    assert (x / y) * y == x;
    assert (x / y + 1.0) * y == x + y;
    Quotient(x / y + 1.0, y);
  }

  /** Each pair together in exactly one of two labellings. */
  ghost predicate Opposite<P, T>(p: seq<P>, t: seq<T>)
    requires |p| == |t|
  {
    Together(p) * Together(t) == {} && Together(p) + Together(t) == AllPairs(|p|)
  }

  lemma OppositeAt<P, T>(p: seq<P>, t: seq<T>, x: nat, y: nat)
    requires |p| == |t| && x < |p| && y < |p| && x != y && Opposite(p, t)
    ensures p[x] == p[y] <==> t[x] != t[y]
  {
    TogetherMeets(p);
    TogetherMeets(t);
    var e: (nat, nat) := if x < y then (x, y) else (y, x);
    assert e in AllPairs(|p|);
    assert e in Together(p) + Together(t) && e !in Together(p) * Together(t);
  }

  /** If one of two opposite labellings puts a pair together, it puts everything together. */
  lemma OppositeJoins<P, T>(p: seq<P>, t: seq<T>, e: (nat, nat), x: nat)
    requires |p| == |t| && x < |p| && Opposite(p, t) && e in Together(p)
    ensures e.0 < |p| && p[x] == p[e.0]
  {
    TogetherMeets(p);
    hide Opposite;
    OppositeAt(p, t, e.0, e.1);
    if x != e.0 && x != e.1 {
      OppositeAt(p, t, x, e.0);
      OppositeAt(p, t, x, e.1);
    }
  }

  lemma OppositeDegenerate<P, T>(p: seq<P>, t: seq<T>)
    requires |p| == |t| && Opposite(p, t)
    ensures Together(p) == {} || Together(t) == {}
  {
    if e :| e in Together(p) {
      TogetherMeets(t);
      forall f: (nat, nat)
        ensures f !in Together(t)
      {
        if f.0 < f.1 < |t| {
          OppositeJoins(p, t, e, f.0);
          OppositeJoins(p, t, e, f.1);
          OppositeAt(p, t, f.0, f.1);
        }
      }
    }
  }

  /** Of two labellings the index is above -1. */
  lemma RandAboveMinusOne<P, T>(p: seq<P>, t: seq<T>)
    requires |p| == |t| >= 2
    ensures Rand(Together(p), Together(t), |p|) > -1.0
  {
    hide Together, Rand;
    TogetherBounded(p);
    TogetherBounded(t);
    RandLower(Together(p), Together(t), |p|);
    assert (0, 1) in AllPairs(|p|);
    if Opposite(p, t) {
      OppositeDegenerate(p, t);
    }
  }

  lemma ThreePositions()
    ensures Together([0, 0, 1]) == {(0, 1)} && Together([0, 1, 0]) == {(0, 2)} && |AllPairs(3)| == 3
  {
    TogetherMeets([0, 0, 1]);
    TogetherMeets([0, 1, 0]);
    hide Together;
    AllPairsCounted(3);
    forall e: (nat, nat)
      ensures e in Together([0, 0, 1]) <==> e == (0, 1)
      ensures e in Together([0, 1, 0]) <==> e == (0, 2)
    {
    }
  }

  /** Three positions, two labellings that each put another two together: the index is -1/2. */
  lemma MinusHalf()
    ensures Rand(Together([0, 0, 1]), Together([0, 1, 0]), 3) == -0.5
  {
    hide Together, AllPairs;
    ThreePositions();
    var a: set<(nat, nat)>, b: set<(nat, nat)> := {(0, 1)}, {(0, 2)};
    assert a * b == {};
    assert Expected(1, 1, 3) == 1.0 / 3.0;
  }

  lemma RandSymmetric(a: set<(nat, nat)>, b: set<(nat, nat)>, n: nat)
    ensures Rand(a, b, n) == Rand(b, a, n)
  {
    assert a * b == b * a;
    assert |a| * |b| == |b| * |a|;
  }

  // ---------- what the scores do not depend on ----------

  function Renamed<K, L>(s: seq<K>, f: K -> L): seq<L> {
    seq(|s|, i requires 0 <= i < |s| => f(s[i]))
  }

  /** No two of these labels are given one name. */
  ghost predicate Injective<K, L>(s: seq<K>, f: K -> L) {
    forall i, j :: 0 <= i < |s| && 0 <= j < |s| && f(s[i]) == f(s[j]) ==> s[i] == s[j]
  }

  lemma RenamedTogether<K, L>(s: seq<K>, f: K -> L)
    requires Injective(s, f)
    ensures Together(Renamed(s, f)) == Together(s)
  {
    TogetherMeets(s);
    TogetherMeets(Renamed(s, f));
    forall p: (nat, nat)
      ensures p in Together(Renamed(s, f)) <==> p in Together(s)
    {
      if p.0 < p.1 < |s| {
        assert Renamed(s, f)[p.0] == f(s[p.0]) && Renamed(s, f)[p.1] == f(s[p.1]);
      }
    }
  }

  /** Renaming the predicted labels one to one, and the true ones, changes neither score. */
  lemma RenamingKeeps<P, T, Q, U>(pred: seq<P>, truth: seq<T>, f: P -> Q, g: T -> U)
    requires |pred| == |truth| && Injective(pred, f) && Injective(truth, g)
    ensures |Renamed(pred, f)| == |pred| == |Renamed(truth, g)|
    ensures Dice(Together(Renamed(pred, f)), Together(Renamed(truth, g))) == Dice(Together(pred), Together(truth))
    ensures Rand(Together(Renamed(pred, f)), Together(Renamed(truth, g)), |pred|)
            == Rand(Together(pred), Together(truth), |pred|)
  {
    RenamedTogether(pred, f);
    RenamedTogether(truth, g);
  }

  lemma CountByMultiset<K>(s: seq<K>, t: seq<K>)
    requires multiset(s) == multiset(t)
    ensures Count(s) == Count(t)
  {
    assert forall k :: k in s <==> multiset(s)[k] > 0;
    assert forall k :: k in t <==> multiset(t)[k] > 0;
  }

  lemma ProjectionByMultiset<K, L>(s: seq<K>, t: seq<K>, ls: seq<L>, lt: seq<L>, proj: K -> L)
    requires multiset(s) == multiset(t) && |ls| == |s| && |lt| == |t|
    requires forall i :: 0 <= i < |s| ==> ls[i] == proj(s[i])
    requires forall i :: 0 <= i < |t| ==> lt[i] == proj(t[i])
    ensures multiset(ls) == multiset(lt)
  {
    CountByMultiset(s, t);
    forall l
      ensures multiset(ls)[l] == multiset(lt)[l]
    {
      MassCounts(s, ls, proj, l);
      MassCounts(t, lt, proj, l);
    }
  }

  lemma SamePairCount<K>(s: seq<K>, t: seq<K>)
    requires multiset(s) == multiset(t)
    ensures |s| == |t| && |Together(s)| == |Together(t)|
  {
    assert |s| == |multiset(s)| && |t| == |multiset(t)|;
    CountByMultiset(s, t);
    PairsCounted(s);
    PairsCounted(t);
  }

  /** Putting the items in another order changes no pair count, so neither score. */
  lemma OrderIrrelevant<P, T>(pred: seq<P>, truth: seq<T>, pred': seq<P>, truth': seq<T>)
    requires |pred| == |truth| && |pred'| == |truth'|
    requires multiset(Zip(pred, truth)) == multiset(Zip(pred', truth'))
    ensures |pred| == |pred'|
    ensures Dice(Together(pred), Together(truth)) == Dice(Together(pred'), Together(truth'))
    ensures Rand(Together(pred), Together(truth), |pred|) == Rand(Together(pred'), Together(truth'), |pred'|)
  {
    hide Together, Count;
    var z, z' := Zip(pred, truth), Zip(pred', truth');
    ProjectionByMultiset(z, z', pred, pred', (k: (P, T)) => k.0);
    ProjectionByMultiset(z, z', truth, truth', (k: (P, T)) => k.1);
    SamePairCount(z, z');
    SamePairCount(pred, pred');
    SamePairCount(truth, truth');
    ZipTogether(pred, truth);
    ZipTogether(pred', truth');
  }
}
