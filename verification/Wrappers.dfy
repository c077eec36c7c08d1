/** The optional value used throughout: a Python `None` or a present value. */
module Wrappers {
  datatype Option<+T> = None | Some(value: T)

  function Get<K, V>(m: map<K, V>, k: K): Option<V> {
    if k in m then Some(m[k]) else None
  }

  lemma Member(xs: set<int>) returns (x: int)
    requires xs != {}
    ensures x in xs
  {
    if forall y :: y !in xs {
      assert false;
    }
    x :| x in xs;
  }

  /** No repetitions. */
  ghost predicate Distinct<T>(xs: seq<T>) {
    forall i, j :: 0 <= i < j < |xs| ==> xs[i] != xs[j]
  }

  /** More items than holes: two of them share one. */
  lemma {:induction false} Pigeonhole<T>(xs: seq<T>, holes: set<T>)
    requires |xs| > |holes| && forall i :: 0 <= i < |xs| ==> xs[i] in holes
    ensures !Distinct(xs)
  {
    var last, rest := xs[|xs| - 1], xs[..|xs| - 1];
    if i :| 0 <= i < |rest| && rest[i] == last {
      assert xs[i] == xs[|rest|];
    } else {
      Pigeonhole(rest, holes - {last});
      var i, j :| 0 <= i < j < |rest| && rest[i] == rest[j];
      assert xs[i] == xs[j];
    }
  }
}
