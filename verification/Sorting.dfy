/** Python's `sorted` by a key: a stable insertion sort over the order that comparing keys induces. */
module Sorting {
  import opened Wrappers

  function Insert<T(!new)>(x: T, xs: seq<T>, leq: (T, T) -> bool): (r: seq<T>)
    ensures |r| == |xs| + 1 && multiset(r) == multiset(xs) + multiset{x}
    ensures forall y :: y in r <==> y == x || y in xs
  {
    if xs == [] || leq(x, xs[0]) then [x] + xs
    else
      assert xs == [xs[0]] + xs[1..];
      [xs[0]] + Insert(x, xs[1..], leq)
  }

  function Sort<T(!new)>(xs: seq<T>, leq: (T, T) -> bool): (r: seq<T>)
    ensures |r| == |xs| && multiset(r) == multiset(xs)
    ensures forall y :: y in r <==> y in xs
  {
    if xs == [] then []
    else
      assert xs == [xs[0]] + xs[1..];
      Insert(xs[0], Sort(xs[1..], leq), leq)
  }

  ghost predicate SortedBy<T(!new)>(xs: seq<T>, leq: (T, T) -> bool) {
    forall i, j :: 0 <= i < j < |xs| ==> leq(xs[i], xs[j])
  }

  /** The order compares any two of the items, and consistently. */
  ghost predicate Orders<T(!new)>(leq: (T, T) -> bool, xs: seq<T>) {
    && (forall x, y :: x in xs && y in xs ==> leq(x, y) || leq(y, x))
    && (forall x, y, z :: x in xs && y in xs && z in xs && leq(x, y) && leq(y, z) ==> leq(x, z))
  }

  lemma {:induction false} InsertSorts<T(!new)>(x: T, xs: seq<T>, leq: (T, T) -> bool)
    requires SortedBy(xs, leq) && Orders(leq, [x] + xs)
    ensures SortedBy(Insert(x, xs, leq), leq)
  {
    if xs == [] {
      Leading(x, xs, leq);
    } else {
      var first, rest := xs[0], xs[1..];
      Trailing(xs, leq);
      OrdersFewer(x, xs, leq);
      hide SortedBy, Orders;
      if leq(x, first) {
        Leading(x, xs, leq);
      } else {
        InsertSorts(x, rest, leq);
        Leading(first, Insert(x, rest, leq), leq);
      }
    }
  }

  /** What an order says of an item and a list, first item apart. */
  lemma OrdersFewer<T(!new)>(x: T, xs: seq<T>, leq: (T, T) -> bool)
    requires xs != [] && Orders(leq, [x] + xs)
    ensures Orders(leq, [x] + xs[1..])
    ensures leq(x, xs[0]) || leq(xs[0], x)
    ensures forall y :: y in xs && leq(x, xs[0]) && leq(xs[0], y) ==> leq(x, y)
  {
    assert forall y :: y in [x] + xs[1..] ==> y in [x] + xs;
    assert x in [x] + xs && xs[0] in [x] + xs && forall y :: y in xs ==> y in [x] + xs;
  }

  lemma Trailing<T(!new)>(xs: seq<T>, leq: (T, T) -> bool)
    requires xs != [] && SortedBy(xs, leq)
    ensures SortedBy(xs[1..], leq) && forall y :: y in xs[1..] ==> leq(xs[0], y)
    ensures xs == [xs[0]] + xs[1..]
  {
    assert forall i :: 0 <= i < |xs| - 1 ==> xs[1..][i] == xs[i + 1];
  }

  lemma Leading<T(!new)>(x: T, xs: seq<T>, leq: (T, T) -> bool)
    requires SortedBy(xs, leq) && forall y :: y in xs ==> leq(x, y)
    ensures SortedBy([x] + xs, leq)
  {
    assert forall i :: 0 <= i < |xs| ==> xs[i] in xs;
  }

  lemma {:induction false} SortSorts<T(!new)>(xs: seq<T>, leq: (T, T) -> bool)
    requires Orders(leq, xs)
    ensures SortedBy(Sort(xs, leq), leq)
  {
    if xs != [] {
      var first, rest := xs[0], xs[1..];
      assert xs == [first] + rest;
      SortSorts(rest, leq);
      assert forall y :: y in [first] + Sort(rest, leq) ==> y in xs;
      InsertSorts(first, Sort(rest, leq), leq);
    }
  }

  ghost predicate Pairwise<T(!new)>(xs: seq<T>, differ: (T, T) -> bool) {
    forall i, j :: 0 <= i < j < |xs| ==> differ(xs[i], xs[j]) && differ(xs[j], xs[i])
  }

  lemma WithoutSecond<T(!new)>(x: T, xs: seq<T>, differ: (T, T) -> bool)
    requires xs != [] && Pairwise([x] + xs, differ)
    ensures Pairwise([x] + xs[1..], differ)
  {
    var all, fewer := [x] + xs, [x] + xs[1..];
    assert forall i :: 1 <= i < |fewer| ==> fewer[i] == all[i + 1];
    assert fewer[0] == all[0];
  }

  lemma FirstDiffers<T(!new)>(x: T, xs: seq<T>, differ: (T, T) -> bool, y: T)
    requires xs != [] && Pairwise([x] + xs, differ) && (y == x || y in xs[1..])
    ensures differ(xs[0], y) && differ(y, xs[0])
  {
    var all := [x] + xs;
    if y in xs[1..] {
      var k :| 0 <= k < |xs[1..]| && xs[1..][k] == y;
      assert all[k + 2] == y && all[1] == xs[0];
    } else {
      assert all[0] == y && all[1] == xs[0];
    }
  }

  lemma {:induction false} InsertPairwise<T(!new)>(x: T, xs: seq<T>, leq: (T, T) -> bool, differ: (T, T) -> bool)
    requires Pairwise([x] + xs, differ)
    ensures Pairwise(Insert(x, xs, leq), differ)
  {
    if xs != [] && !leq(x, xs[0]) {
      var first, rest := xs[0], xs[1..];
      WithoutSecond(x, xs, differ);
      InsertPairwise(x, rest, leq, differ);
      var r := Insert(x, rest, leq);
      forall i | 0 <= i < |r|
        ensures differ(first, r[i]) && differ(r[i], first)
      {
        assert r[i] in r;
        FirstDiffers(x, xs, differ, r[i]);
      }
    }
  }

  /** Sorting keeps items that differ pairwise so. */
  lemma {:induction false} SortPairwise<T(!new)>(xs: seq<T>, leq: (T, T) -> bool, differ: (T, T) -> bool)
    requires Pairwise(xs, differ)
    ensures Pairwise(Sort(xs, leq), differ)
  {
    if xs != [] {
      var first, rest := xs[0], xs[1..];
      assert forall i :: 0 <= i < |rest| ==> rest[i] == xs[i + 1];
      SortPairwise(rest, leq, differ);
      var sorted := Sort(rest, leq);
      forall i | 0 <= i < |sorted|
        ensures differ(first, sorted[i]) && differ(sorted[i], first)
      {
        assert sorted[i] in sorted;
        var k :| 0 <= k < |rest| && rest[k] == sorted[i];
        assert xs[k + 1] == sorted[i];
      }
      InsertPairwise(first, sorted, leq, differ);
    }
  }

  lemma SortDistinct<T(!new)>(xs: seq<T>, leq: (T, T) -> bool)
    requires Distinct(xs)
    ensures Distinct(Sort(xs, leq))
  {
    var differ := (x: T, y: T) => x != y;
    assert Pairwise(xs, differ);
    SortPairwise(xs, leq, differ);
    var sorted := Sort(xs, leq);
    assert forall i, j :: 0 <= i < j < |sorted| ==> differ(sorted[i], sorted[j]);
  }
}
