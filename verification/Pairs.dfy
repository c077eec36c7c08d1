/**
 What pair counting counts. A labelling puts a pair of positions together when it gives both the same
 label; every score of `eval/metrics.py` is about the three sets of pairs put together by the
 prediction, by the truth and by both. The counters of the source are tied here to those sets.
 */
module Pairs {
  import opened Sums

  /** Every pair of positions i < j that a labelling puts together: the brute-force enumeration. */
  ghost function Together<K>(s: seq<K>): set<(nat, nat)> {
    set i: nat, j: nat | i < j < |s| && s[i] == s[j] :: (i, j)
  }

  lemma TogetherMeets<K>(s: seq<K>)
    ensures forall p: (nat, nat) :: p in Together(s) <==> p.0 < p.1 < |s| && s[p.0] == s[p.1]
  {
    forall p: (nat, nat) | p.0 < p.1 < |s| && s[p.0] == s[p.1]
      ensures p in Together(s)
    {
      assert p == (p.0, p.1);
    }
  }

  ghost function AllPairs(n: nat): set<(nat, nat)> {
    set i: nat, j: nat | i < j < n :: (i, j)
  }

  function Comb2(n: int): int {
    n * (n - 1) / 2
  }

  lemma Comb2Step(n: nat)
    ensures Comb2(n + 1) == Comb2(n) + n && Comb2(n) >= 0
  {
    assert (n + 1) * n == n * (n - 1) + 2 * n;
    if n == 0 {
      assert n * (n - 1) == 0;
    } else {
      assert n * (n - 1) >= 0;
    }
  }

  function Zip<P, T>(pred: seq<P>, truth: seq<T>): seq<(P, T)>
    requires |pred| == |truth|
  {
    seq(|pred|, i requires 0 <= i < |pred| => (pred[i], truth[i]))
  }

  /** How often each label occurs. */
  function Count<K(==)>(s: seq<K>): map<K, int> {
    map k | k in s :: multiset(s)[k]
  }

  ghost function Combs<K>(m: map<K, int>): map<K, int> {
    map k | k in m :: Comb2(m[k])
  }

  // ---------- counting by occurrence is counting pairs ----------

  /** The earlier positions with the label of the last one. */
  ghost function Earlier<K>(s: seq<K>, x: K): set<(nat, nat)> {
    set i: nat | i < |s| && s[i] == x :: (i, |s|)
  }

  lemma {:induction false} EarlierCount<K>(s: seq<K>, x: K)
    ensures |Earlier(s, x)| == multiset(s)[x]
  {
    Positions(s, x);
    var at := set i: nat | i < |s| && s[i] == x;
    Tagged(at, |s|);
    assert Earlier(s, x) == Tag(at, |s|);
  }

  lemma {:induction false} Positions<K>(s: seq<K>, x: K)
    ensures |set i: nat | i < |s| && s[i] == x| == multiset(s)[x]
  {
    if s != [] {
      var rest := s[..|s| - 1];
      Positions(rest, x);
      assert s == rest + [s[|s| - 1]];
      var before := set i: nat | i < |rest| && rest[i] == x;
      var after := set i: nat | i < |s| && s[i] == x;
      if s[|s| - 1] == x {
        assert after == before + {|s| - 1};
      } else {
        assert after == before;
      }
    }
  }

  ghost function Tag(at: set<nat>, n: nat): set<(nat, nat)> {
    set i | i in at :: (i, n)
  }

  lemma {:induction false} Tagged(at: set<nat>, n: nat)
    ensures |Tag(at, n)| == |at|
  {
    if at == {} {
      assert Tag(at, n) == {};
    } else {
      var k :| k in at;
      Tagged(at - {k}, n);
      assert at == at - {k} + {k};
      assert Tag(at, n) == Tag(at - {k}, n) + {(k, n)} && (k, n) !in Tag(at - {k}, n);
    }
  }

  lemma TogetherGrows<K>(s: seq<K>, x: K)
    ensures |Together(s + [x])| == |Together(s)| + multiset(s)[x]
  {
    var t := s + [x];
    TogetherMeets(s);
    TogetherMeets(t);
    EarlierCount(s, x);
    forall p: (nat, nat)
      ensures p in Together(t) <==> p in Together(s) + Earlier(s, x)
    {
      if p in Together(t) && p.1 == |s| {
        assert p == (p.0, |s|) && s[p.0] == x;
      }
    }
    assert Together(t) == Together(s) + Earlier(s, x);
    assert Together(s) !! Earlier(s, x);
  }

  lemma CountNone<K>()
    ensures Count<K>([]) == map[]
  {
  }

  lemma CountGrows<K>(s: seq<K>, x: K)
    ensures Count(s + [x]) == Count(s)[x := multiset(s)[x] + 1]
    ensures Count(s + [x]) == Count(s)[x := (if x in Count(s) then Count(s)[x] else 0) + 1]
    ensures x in s <==> multiset(s)[x] > 0
  {
    assert forall k :: k in s + [x] <==> k in s || k == x;
  }

  lemma CombsGrow<K>(s: seq<K>, x: K)
    ensures Sum(Combs(Count(s + [x]))) == Sum(Combs(Count(s))) + multiset(s)[x]
  {
    var c := multiset(s)[x];
    CountGrows(s, x);
    Comb2Step(c);
    assert Combs(Count(s + [x])) == Combs(Count(s))[x := Comb2(c + 1)];
    SumPut(Combs(Count(s)), x, Comb2(c + 1));
    assert x !in s ==> Comb2(c) == 0;
  }

  /** The contingency sums are the brute-force enumeration: adding n choose 2 over how often each
      label occurs counts exactly the pairs of positions with equal labels. */
  lemma {:induction false} PairsCounted<K>(s: seq<K>)
    ensures |Together(s)| == Sum(Combs(Count(s)))
  {
    if s == [] {
      assert Together(s) == {};
      SumEmpty(Combs(Count(s)));
    } else {
      var rest := s[..|s| - 1];
      PairsCounted(rest);
      TogetherGrows(rest, s[|s| - 1]);
      CombsGrow(rest, s[|s| - 1]);
      assert s == rest + [s[|s| - 1]];
    }
  }

  /** Every pair of positions, counted as the source counts them. */
  lemma AllPairsCounted(n: nat)
    ensures |AllPairs(n)| == Comb2(n)
  {
    var s := seq(n, i => 0);
    TogetherMeets(s);
    assert Together(s) == AllPairs(n);
    PairsCounted(s);
    if n > 0 {
      Uniform(n);
      assert Combs(Count(s)) == map[0 := Comb2(n)];
      SumPut(map[], 0, Comb2(n));
    } else {
      assert Combs(Count(s)) == map[];
    }
  }

  lemma Uniform(n: nat)
    ensures multiset(seq(n, i => 0))[0] == n
  {
    if n > 0 {
      Uniform(n - 1);
      assert seq(n, i => 0) == seq(n - 1, i => 0) + [0];
    }
  }

  /** A pair is together in both labellings exactly when their zipped labels agree. */
  lemma ZipTogether<P, T>(pred: seq<P>, truth: seq<T>)
    requires |pred| == |truth|
    ensures Together(Zip(pred, truth)) == Together(pred) * Together(truth)
  {
    TogetherMeets(pred);
    TogetherMeets(truth);
    TogetherMeets(Zip(pred, truth));
  }

  lemma TogetherBounded<K>(s: seq<K>)
    ensures Together(s) <= AllPairs(|s|) && |Together(s)| <= Comb2(|s|)
  {
    AllPairsCounted(|s|);
    Included(Together(s), AllPairs(|s|));
  }

  lemma Included<X>(a: set<X>, b: set<X>)
    requires a <= b
    ensures |a| <= |b| && (|a| == |b| ==> a == b)
  {
    assert b == a + (b - a);
    assert |b| == |a| + |b - a|;
  }

  // ---------- marginals ----------

  /** The occurrences of the table's entries that `proj` sends to `l`. */
  ghost function Mass<K, L>(table: map<K, int>, proj: K -> L, l: L): int {
    Sum(map k | k in table && proj(k) == l :: table[k])
  }

  lemma MassPut<K, L>(table: map<K, int>, proj: K -> L, l: L, k: K, v: int)
    ensures Mass(table[k := v], proj, l) ==
            Mass(table, proj, l) + if proj(k) == l then v - (if k in table then table[k] else 0) else 0
  {
    var before := map x | x in table && proj(x) == l :: table[x];
    var after := map x | x in table[k := v] && proj(x) == l :: table[k := v][x];
    if proj(k) == l {
      assert after == before[k := v];
      SumPut(before, k, v);
    } else {
      assert after == before;
    }
  }

  /** Adding up the table along one side counts the labels of that side. */
  lemma {:induction false} MassCounts<K, L>(s: seq<K>, labels: seq<L>, proj: K -> L, l: L)
    requires |labels| == |s| && forall i :: 0 <= i < |s| ==> labels[i] == proj(s[i])
    ensures Mass(Count(s), proj, l) == multiset(labels)[l]
  {
    if s == [] {
      SumEmpty(map k | k in Count(s) && proj(k) == l :: 0);
    } else {
      hide Count, Mass;
      var rest, x := s[..|s| - 1], s[|s| - 1];
      var shorter, last := labels[..|labels| - 1], labels[|labels| - 1];
      assert s == rest + [x] && labels == shorter + [last];
      MassCounts(rest, shorter, proj, l);
      CountGrows(rest, x);
      MassPut(Count(rest), proj, l, x, (if x in Count(rest) then Count(rest)[x] else 0) + 1);
      assert multiset(labels) == multiset(shorter) + multiset{last};
    }
  }
}
