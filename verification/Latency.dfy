/** The queueing model of `eval/harness.py`: one server, `SERVICE_S` a trap, in order of arrival. */
module Latency {
  import opened Sorting

  const SERVICE_S: real := 0.0003

  predicate AtMost(a: real, b: real) {
    a <= b
  }

  ghost predicate Ascending(s: seq<real>) {
    SortedBy(s, AtMost)
  }

  /** The arrivals in order. */
  function Sorted(s: seq<real>): (sorted: seq<real>)
    ensures multiset(sorted) == multiset(s) && |sorted| == |s|
  {
    Sort(s, AtMost)
  }

  lemma SortedAscending(s: seq<real>)
    ensures Ascending(Sorted(s))
  {
    SortSorts(s, AtMost);
  }

  /** The work from the `j`-th trap to the `k`-th, begun when the `j`-th arrives. */
  function Through(ts: seq<real>, j: nat, k: nat): real
    requires j <= k < |ts|
  {
    ts[j] + (k - j + 1) as real * SERVICE_S
  }

  /** When the `k`-th trap is done: the longest of the busy periods that reach it, counting one from the
      clock's start at 0. */
  ghost predicate Finishes(ts: seq<real>, k: nat, finish: real)
    requires k < |ts|
  {
    && finish >= (k + 1) as real * SERVICE_S
    && (forall j :: 0 <= j <= k ==> finish >= Through(ts, j, k))
    && (finish == (k + 1) as real * SERVICE_S || exists j :: 0 <= j <= k && finish == Through(ts, j, k))
  }

  lemma Extend(ts: seq<real>, k: nat, before: real, finish: real)
    requires k < |ts|
    requires if k == 0 then before == 0.0 else Finishes(ts, k - 1, before)
    requires finish == (if ts[k] >= before then ts[k] else before) + SERVICE_S
    ensures Finishes(ts, k, finish)
  {
    forall j | 0 <= j <= k
      ensures finish >= Through(ts, j, k)
    {
      if j < k {
        assert before >= Through(ts, j, k - 1);
      }
    }
    if ts[k] >= before {
      assert finish == Through(ts, k, k);
    } else if k > 0 && before != k as real * SERVICE_S {
      var j :| 0 <= j <= k - 1 && before == Through(ts, j, k - 1);
      assert finish == Through(ts, j, k);
    }
  }

  /** A finish is determined, at least the service time after the arrival, and, for arrivals that are not
      before 0, the longest busy period alone. */
  lemma FinishMeaning(ts: seq<real>, k: nat, finish: real)
    requires k < |ts| && Finishes(ts, k, finish)
    ensures finish - ts[k] >= 0.0003
    ensures forall other :: Finishes(ts, k, other) ==> other == finish
    ensures ts[0] >= 0.0 ==> exists j :: 0 <= j <= k && finish == Through(ts, j, k)
  {
    assert finish >= Through(ts, k, k);
    if finish == (k + 1) as real * SERVICE_S {
      assert finish >= Through(ts, 0, k) == ts[0] + (k + 1) as real * SERVICE_S;
    }
    forall other | Finishes(ts, k, other)
      ensures other == finish
    {
      Unique(ts, k, finish, other);
      Unique(ts, k, other, finish);
    }
  }

  /** A trap is begun when it has come and the one before is done, the first when it has come and the clock has
      started, and takes 0.3 ms. */
  lemma FinishSteps(ts: seq<real>, k: nat, before: real, finish: real)
    requires k < |ts| && if k == 0 then before == 0.0 else Finishes(ts, k - 1, before)
    ensures Finishes(ts, k, finish) <==> finish == (if ts[k] < before then before else ts[k]) + 0.0003
  {
    var next := (if ts[k] < before then before else ts[k]) + 0.0003;
    Extend(ts, k, before, next);
    if Finishes(ts, k, finish) {
      Unique(ts, k, finish, next);
      Unique(ts, k, next, finish);
    }
  }

  /** Each trap is done at least the service time after the one before. */
  lemma FinishesGrow(ts: seq<real>, k: nat, finish: real, next: real)
    requires k + 1 < |ts| && Finishes(ts, k, finish) && Finishes(ts, k + 1, next)
    ensures next >= finish + SERVICE_S
  {
    if finish == (k + 1) as real * SERVICE_S {
      assert next >= (k + 2) as real * SERVICE_S;
    } else {
      var j :| 0 <= j <= k && finish == Through(ts, j, k);
      assert next >= Through(ts, j, k + 1);
    }
  }

  /** `_synthetic_latencies`: each trap's latency is its finish less its arrival, so none is below the
      service time, and no trap is done before an earlier one. */
  method SyntheticLatencies(events: seq<real>) returns (out: seq<real>)
    ensures |out| == |events| == |Sorted(events)| && multiset(Sorted(events)) == multiset(events)
    ensures forall i, j :: 0 <= i < j < |events| ==> Sorted(events)[i] <= Sorted(events)[j]
    ensures forall k :: 0 <= k < |out| ==> Finishes(Sorted(events), k, out[k] + Sorted(events)[k])
    ensures forall k :: 0 <= k < |out| ==> out[k] >= 0.0003
    ensures forall k :: 0 <= k < |out| - 1 ==>
              out[k + 1] + Sorted(events)[k + 1] >= out[k] + Sorted(events)[k] + 0.0003
  {
    hide Sorted, Finishes;
    var clock := 0.0;
    out := [];
    var ts := Sorted(events);
    SortedAscending(events);
    for k := 0 to |ts|
      invariant |out| == k
      invariant if k == 0 then clock == 0.0 else Finishes(ts, k - 1, clock)
      invariant forall i :: 0 <= i < k ==> Finishes(ts, i, out[i] + ts[i])
    {
      var start := if ts[k] >= clock then ts[k] else clock;
      var finish := start + SERVICE_S;
      Extend(ts, k, clock, finish);
      out := out + [finish - ts[k]];
      assert out[k] + ts[k] == finish;
      clock := finish;
    }
    forall k | 0 <= k < |out|
      ensures out[k] >= SERVICE_S
    {
      FinishMeaning(ts, k, out[k] + ts[k]);
    }
    forall k | 0 <= k < |out| - 1
      ensures out[k + 1] + ts[k + 1] >= out[k] + ts[k] + SERVICE_S
    {
      FinishesGrow(ts, k, out[k] + ts[k], out[k + 1] + ts[k + 1]);
    }
  }

  lemma Unique(ts: seq<real>, k: nat, a: real, b: real)
    requires k < |ts| && Finishes(ts, k, a) && Finishes(ts, k, b)
    ensures a <= b
  {
    if a != (k + 1) as real * SERVICE_S {
      var j :| 0 <= j <= k && a == Through(ts, j, k);
      assert b >= Through(ts, j, k);
    }
  }
}
