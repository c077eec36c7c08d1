/**
 Tie-averaged ranks, `_ranks` of `eval/synth/tuning.py`: the positions of a sorted list, every block of ties
 at its middle. Exact reals.
 */
module Ranks {
  import opened Sorting
  import opened Wrappers

  // ---------- ranks ----------

  ghost function BelowAt(values: seq<real>, v: real): set<int> {
    set k | 0 <= k < |values| && values[k] < v
  }

  ghost function SameAt(values: seq<real>, v: real): set<int> {
    set k | 0 <= k < |values| && values[k] == v
  }

  ghost function AboveAt(values: seq<real>, v: real): set<int> {
    set k | 0 <= k < |values| && values[k] > v
  }

  /** How many are smaller, and half of how many others are equal. */
  ghost function Rank(values: seq<real>, v: real): real {
    |BelowAt(values, v)| as real + (|SameAt(values, v)| - 1) as real / 2.0
  }

  ghost predicate Within(order: seq<nat>, n: nat) {
    forall a :: 0 <= a < |order| ==> order[a] < n
  }

  /** By value, over indices. */
  function ByValue(values: seq<real>): (nat, nat) -> bool {
    (i: nat, j: nat) => i < |values| && j < |values| && values[i] <= values[j]
  }

  /** `sorted(range(len(values)), key=lambda i: values[i])`. */
  function Order(values: seq<real>): (order: seq<nat>)
    ensures Within(order, |values|) && |order| == |values|
    ensures forall i :: 0 <= i < |values| ==> i in order
  {
    var range: seq<nat> := seq(|values|, i => i);
    var order := Sort(range, ByValue(values));
    assert forall i :: 0 <= i < |values| ==> range[i] == i && i in range;
    assert forall k :: k in range ==> k < |values|;
    assert forall a :: 0 <= a < |order| ==> order[a] in order;
    order
  }

  ghost predicate Ordered(values: seq<real>, order: seq<nat>) {
    Within(order, |values|) && SortedBy(order, ByValue(values)) && Distinct(order)
  }

  lemma OrderOrdered(values: seq<real>)
    ensures Ordered(values, Order(values)) && Distinct(Order(values))
  {
    var range: seq<nat> := seq(|values|, i => i);
    assert forall k :: k in range ==> k < |values|;
    SortSorts(range, ByValue(values));
    SortDistinct(range, ByValue(values));
  }

  ghost function Slots(order: seq<nat>, lo: nat, hi: nat): set<nat>
    requires lo <= hi <= |order|
  {
    set m | lo <= m < hi :: order[m]
  }

  lemma {:induction false} SlotsSize(order: seq<nat>, lo: nat, hi: nat)
    requires lo <= hi <= |order| && Distinct(order)
    ensures |Slots(order, lo, hi)| == hi - lo
  {
    if lo < hi {
      SlotsSize(order, lo, hi - 1);
      assert Slots(order, lo, hi) == Slots(order, lo, hi - 1) + {order[hi - 1]};
    } else {
      assert Slots(order, lo, hi) == {};
    }
  }

  /** The positions `lo..hi` of the sorted order hold exactly the items equal to `v`. */
  ghost predicate Block(values: seq<real>, order: seq<nat>, lo: nat, hi: nat, v: real)
    requires lo <= hi <= |order| && Within(order, |values|)
  {
    && (forall m :: 0 <= m < lo ==> values[order[m]] < v)
    && (forall m :: lo <= m < hi ==> values[order[m]] == v)
    && (forall m :: hi <= m < |order| ==> values[order[m]] > v)
  }

  lemma BlockRank(values: seq<real>, order: seq<nat>, lo: nat, hi: nat, v: real)
    requires Ordered(values, order) && forall k :: 0 <= k < |values| ==> k in order
    requires lo < hi <= |order| && Block(values, order, lo, hi, v)
    ensures Rank(values, v) == (lo + hi - 1) as real / 2.0
  {
    SlotsSize(order, 0, lo);
    SlotsSize(order, lo, hi);
    forall k | 0 <= k < |values|
      ensures k in BelowAt(values, v) <==> k in Slots(order, 0, lo)
      ensures k in SameAt(values, v) <==> k in Slots(order, lo, hi)
    {
      assert k in order;
      var m :| 0 <= m < |order| && order[m] == k;
    }
    assert BelowAt(values, v) == Slots(order, 0, lo);
    assert SameAt(values, v) == Slots(order, lo, hi);
  }

  /** The block the two inner indices delimit ranks at its middle, and ends before a larger value. */
  lemma MiddleRank(values: seq<real>, order: seq<nat>, i: nat, j: nat)
    requires Ordered(values, order) && (forall k :: 0 <= k < |values| ==> k in order)
    requires i <= j < |order| && forall m :: i <= m <= j ==> values[order[m]] == values[order[i]]
    requires i > 0 ==> values[order[i - 1]] < values[order[i]]
    requires j + 1 < |order| ==> values[order[j + 1]] != values[order[i]]
    ensures Rank(values, values[order[i]]) == (i + j) as real / 2.0
    ensures j + 1 < |order| ==> values[order[j]] < values[order[j + 1]]
  {
    assert Block(values, order, i, j + 1, values[order[i]]);
    BlockRank(values, order, i, j + 1, values[order[i]]);
  }

  /** The inner loop: the last position of the block of ties that starts at `i`. */
  method TieEnd(values: seq<real>, order: seq<nat>, i: nat) returns (j: nat)
    requires Ordered(values, order) && (forall k :: 0 <= k < |values| ==> k in order)
    requires i < |order| && (i > 0 ==> values[order[i - 1]] < values[order[i]])
    ensures i <= j < |order| && forall m :: i <= m <= j ==> values[order[m]] == values[order[i]]
    ensures Rank(values, values[order[i]]) == (i + j) as real / 2.0
    ensures j + 1 < |order| ==> values[order[j]] < values[order[j + 1]]
  {
    hide Rank;
    j := i;
    while j + 1 < |order| && values[order[j + 1]] == values[order[i]]
      invariant i <= j < |order|
      invariant forall m :: i <= m <= j ==> values[order[m]] == values[order[i]]
    {
      j := j + 1;
    }
    MiddleRank(values, order, i, j);
  }

  /** The writing loop: every position of the block gets the same rank. */
  method Level(order: seq<nat>, out: array<real>, i: nat, j: nat, rank: real)
    requires Within(order, out.Length) && Distinct(order) && i <= j < |order|
    modifies out
    ensures forall m :: 0 <= m < i ==> out[order[m]] == old(out[order[m]])
    ensures forall m :: i <= m <= j ==> out[order[m]] == rank
  {
    for k := i to j + 1
      invariant forall m :: 0 <= m < i ==> out[order[m]] == old(out[order[m]])
      invariant forall m :: i <= m < k ==> out[order[m]] == rank
    {
      out[order[k]] := rank;
    }
  }

  /** `_ranks`: the positions of a sorted list, every tie at its block's middle. */
  method Ranked(values: seq<real>) returns (ranks: seq<real>)
    ensures |ranks| == |values|
    ensures forall i :: 0 <= i < |values| ==> ranks[i] == Rank(values, values[i])
  {
    hide Rank, Order, Ordered, Distinct;
    var order := Order(values);
    OrderOrdered(values);
    var out := new real[|values|](_ => 0.0);
    var i := 0;
    while i < |order|
      invariant 0 <= i <= |order|
      invariant forall m :: 0 <= m < i ==> out[order[m]] == Rank(values, values[order[m]])
      invariant 0 < i < |order| ==> values[order[i - 1]] < values[order[i]]
    {
      var j := TieEnd(values, order, i);
      Level(order, out, i, j, (i + j) as real / 2.0);
      i := j + 1;
    }
    ranks := out[..];
    Everywhere(values, order, ranks);
  }

  lemma Everywhere(values: seq<real>, order: seq<nat>, ranks: seq<real>)
    requires Within(order, |values|) && |ranks| == |values| && forall k :: 0 <= k < |values| ==> k in order
    requires forall m :: 0 <= m < |order| ==> ranks[order[m]] == Rank(values, values[order[m]])
    ensures forall k :: 0 <= k < |values| ==> ranks[k] == Rank(values, values[k])
  {
    forall k | 0 <= k < |values|
      ensures ranks[k] == Rank(values, values[k])
    {
      assert k in order;
      var m :| 0 <= m < |order| && order[m] == k;
    }
  }

  /** Ranks see the order of the values and nothing else. */
  lemma RanksSeeOrderOnly(a: seq<real>, b: seq<real>, i: nat)
    requires |a| == |b| && i < |a|
    requires forall k :: 0 <= k < |a| ==> (a[k] < a[i] <==> b[k] < b[i]) && (a[k] == a[i] <==> b[k] == b[i])
    ensures Rank(a, a[i]) == Rank(b, b[i])
  {
    assert BelowAt(a, a[i]) == BelowAt(b, b[i]);
    assert SameAt(a, a[i]) == SameAt(b, b[i]);
  }

  /** A larger value ranks higher. */
  lemma RanksKeepOrder(values: seq<real>, i: nat, j: nat)
    requires i < |values| && j < |values|
    ensures values[i] < values[j] <==> Rank(values, values[i]) < Rank(values, values[j])
  {
    if values[i] < values[j] {
      RanksRise(values, i, j);
    } else if values[j] < values[i] {
      RanksRise(values, j, i);
    }
  }

  lemma RanksRise(values: seq<real>, i: nat, j: nat)
    requires i < |values| && j < |values| && values[i] < values[j]
    ensures Rank(values, values[i]) < Rank(values, values[j])
  {
    var below, same := BelowAt(values, values[i]), SameAt(values, values[i]);
    var higher, peers := BelowAt(values, values[j]), SameAt(values, values[j]);
    Inside(below + same, higher);
    assert |below + same| == |below| + |same| - |below * same|;
    assert below * same == {};
    assert i in same && j in peers;
    Inside({i}, same);
    Inside({j}, peers);
  }

  lemma {:induction false} Inside(a: set<int>, b: set<int>)
    requires a <= b
    ensures |a| <= |b|
  {
    assert b == a + (b - a);
  }

  // ---------- the sum of the ranks ----------

  lemma CountedBelow(values: seq<real>, x: real, v: real)
    ensures |BelowAt(values + [x], v)| == |BelowAt(values, v)| + if x < v then 1 else 0
  {
    assert BelowAt(values + [x], v) == BelowAt(values, v) + (if x < v then {|values|} else {});
  }

  lemma CountedSame(values: seq<real>, x: real, v: real)
    ensures |SameAt(values + [x], v)| == |SameAt(values, v)| + if x == v then 1 else 0
  {
    assert SameAt(values + [x], v) == SameAt(values, v) + (if x == v then {|values|} else {});
  }

  lemma CountedAbove(values: seq<real>, x: real, v: real)
    ensures |AboveAt(values + [x], v)| == |AboveAt(values, v)| + if x > v then 1 else 0
  {
    assert AboveAt(values + [x], v) == AboveAt(values, v) + (if x > v then {|values|} else {});
  }

  lemma Counted(values: seq<real>, x: real, v: real)
    ensures |BelowAt(values + [x], v)| == |BelowAt(values, v)| + if x < v then 1 else 0
    ensures |SameAt(values + [x], v)| == |SameAt(values, v)| + if x == v then 1 else 0
    ensures |AboveAt(values + [x], v)| == |AboveAt(values, v)| + if x > v then 1 else 0
  {
    CountedBelow(values, x, v);
    CountedSame(values, x, v);
    CountedAbove(values, x, v);
  }

  ghost function RankSum(values: seq<real>, over: seq<real>): real {
    if over == [] then 0.0 else RankSum(values, over[..|over| - 1]) + Rank(values, over[|over| - 1])
  }

  /** One more value `x` raises the ranks of the values above it by 1 and of its equals by a half. */
  lemma {:induction false} RankSumGrows(values: seq<real>, x: real, over: seq<real>)
    ensures RankSum(values + [x], over)
            == RankSum(values, over) + |AboveAt(over, x)| as real + |SameAt(over, x)| as real / 2.0
  {
    if over == [] {
      assert AboveAt(over, x) == {} == SameAt(over, x);
    } else {
      var rest, v := over[..|over| - 1], over[|over| - 1];
      assert over == rest + [v];
      RankSumGrows(values, x, rest);
      Counted(values, x, v);
      Counted(rest, v, x);
    }
  }

  lemma {:induction false} Trichotomy(values: seq<real>, v: real)
    ensures |BelowAt(values, v)| + |SameAt(values, v)| + |AboveAt(values, v)| == |values|
  {
    if values == [] {
      assert BelowAt(values, v) == {} == SameAt(values, v) == AboveAt(values, v);
    } else {
      var rest, x := values[..|values| - 1], values[|values| - 1];
      assert values == rest + [x];
      Trichotomy(rest, v);
      Counted(rest, x, v);
    }
  }

  /** However many ties, the ranks sum to `0 + 1 + ... + (n - 1)`. */
  lemma {:induction false} RanksSum(values: seq<real>)
    ensures RankSum(values, values) == (|values| * (|values| - 1)) as real / 2.0
  {
    if values != [] {
      var rest, x := values[..|values| - 1], values[|values| - 1];
      assert values == rest + [x];
      RanksSum(rest);
      RankSumGrows(rest, x, rest);
      Counted(rest, x, x);
      Trichotomy(rest, x);
      Triangle(|rest|);
    }
  }

  lemma Triangle(n: int)
    ensures (n * (n - 1)) as real / 2.0 + n as real == ((n + 1) * n) as real / 2.0
  {
    assert (n + 1) * n == n * (n - 1) + 2 * n;
  }
}
