/**
 The rungs of a search, told from its record: which candidates each one fits and which of them advance.
 */
module Rounds {
  import opened Sorting
  import opened Wrappers
  import opened Halving

  /** The finished trials of a rung's candidates, each as often as it is recorded, the least loss first and then
      the least index. */
  ghost predicate Ranking(ranking: seq<Trial>, record: seq<Trial>, alive: seq<nat>, rung: nat) {
    && |ranking| == |Finishers(record, alive, rung)|
    && (forall t :: multiset(ranking)[t] == |set k | k in Finishers(record, alive, rung) && record[k] == t|)
    && (forall t :: t in ranking ==> t.valid.Finite?)
    && forall i, j :: 0 <= i < j < |ranking| ==>
         || ranking[i].valid.value < ranking[j].valid.value
         || (ranking[i].valid.value == ranking[j].valid.value && ranking[i].index <= ranking[j].index)
  }

  /** Who advances from a rung: of its `n` finished candidates, two or more, the first `max(1, n // eta)` of that
      ranking, the division flooring. */
  ghost predicate Advances(eta: int, record: seq<Trial>, alive: seq<nat>, rung: nat, next: seq<nat>) {
    var n := |Finishers(record, alive, rung)|;
    && n > 1 && eta != 0 && |next| == (if eta > 0 && n / eta >= 1 then n / eta else 1)
    && exists ranking: seq<Trial> ::
         Ranking(ranking, record, alive, rung) && |next| <= |ranking|
         && forall i :: 0 <= i < |next| ==> next[i] == ranking[i].index
  }

  /** The trials recorded after the first `n`: each a fit of its own draw, of a candidate of its rung's round, not
      recorded before, lower rungs first. */
  ghost predicate FitsOf(q: Search, record: seq<Trial>, n: nat, rung: nat, rounds: seq<seq<nat>>) {
    && (forall k :: n <= k < |record| ==>
          && rung <= record[k].rung < rung + |rounds| && record[k].index in rounds[record[k].rung - rung]
          && FromFit(q, record[k]))
    && (forall k, l :: 0 <= k < l < |record| && n <= l ==>
          !(record[k].index == record[l].index && record[k].rung == record[l].rung))
    && forall k, l :: n <= k < l < |record| ==> record[k].rung <= record[l].rung
  }

  lemma {:induction false} FillFits(q: Search, record: seq<Trial>, alive: seq<nat>, rung: nat)
    requires rung < |q.rungs|
    ensures var after := Fill(q, record, alive, rung);
            && record <= after && FitsOf(q, after, |record|, rung, [alive])
            && forall i :: i in alive ==> Ran(after, i, rung)
  {
    hide TrialOf, FromFit;
    if alive != [] {
      var rest, index := alive[..|alive| - 1], alive[|alive| - 1];
      assert alive == rest + [index];
      FillFits(q, record, rest, rung);
      OneFit(q, record, Fill(q, record, rest, rung), rest, index, rung);
    }
  }

  lemma OneFit(q: Search, record: seq<Trial>, before: seq<Trial>, rest: seq<nat>, index: nat, rung: nat)
    requires rung < |q.rungs| && record <= before && FitsOf(q, before, |record|, rung, [rest])
    requires forall i :: i in rest ==> Ran(before, i, rung)
    ensures var after := if Ran(before, index, rung) then before else before + [TrialOf(q, index, rung)];
            && record <= after && FitsOf(q, after, |record|, rung, [rest + [index]])
            && forall i :: i in rest + [index] ==> Ran(after, i, rung)
  {
    hide TrialOf, FromFit, Ran, FitsOf;
    var t := TrialOf(q, index, rung);
    TrialFromFit(q, index, rung);
    var after := if Ran(before, index, rung) then before else before + [t];
    OneFitsMore(q, before, |record|, rest, index, rung);
    forall i | i in rest + [index]
      ensures Ran(after, i, rung)
    {
      RanMore(before, t);
      if i in rest {
        RanOn(before, after, i, rung);
      }
    }
  }

  lemma RanMore(record: seq<Trial>, t: Trial)
    ensures Ran(record + [t], t.index, t.rung)
  {
    assert (record + [t])[|record|] == t;
  }

  lemma OneFitsMore(q: Search, before: seq<Trial>, n: nat, rest: seq<nat>, index: nat, rung: nat)
    requires rung < |q.rungs| && n <= |before| && FitsOf(q, before, n, rung, [rest])
    ensures FitsOf(q, before, n, rung, [rest + [index]])
    ensures !Ran(before, index, rung) ==> FitsOf(q, before + [TrialOf(q, index, rung)], n, rung, [rest + [index]])
  {
    hide TrialOf, FromFit;
    TrialFromFit(q, index, rung);
  }

  ghost function Copies(record: seq<Trial>, alive: seq<nat>, rung: nat, t: Trial): set<nat> {
    set k | k in Finishers(record, alive, rung) && record[k] == t
  }

  lemma CopiesMore(record: seq<Trial>, u: Trial, alive: seq<nat>, rung: nat, t: Trial)
    ensures |Copies(record + [u], alive, rung, t)| ==
            |Copies(record, alive, rung, t)| + if Counts(u, alive, rung) && u == t then 1 else 0
  {
    assert Copies(record + [u], alive, rung, t) ==
           Copies(record, alive, rung, t) + (if Counts(u, alive, rung) && u == t then {|record|} else {});
  }

  lemma CountingMore(record: seq<Trial>, u: Trial, alive: seq<nat>, rung: nat)
    ensures Counting(record + [u], alive, rung)
            == Counting(record, alive, rung) + if Counts(u, alive, rung) then [u] else []
  {
    assert (record + [u])[..|record|] == record;
  }

  lemma {:induction false} CountingCopies(record: seq<Trial>, alive: seq<nat>, rung: nat, t: Trial)
    ensures multiset(Counting(record, alive, rung))[t] == |Copies(record, alive, rung, t)|
  {
    if record == [] {
      assert Copies(record, alive, rung, t) == {};
    } else {
      hide Copies, Counting, Counts;
      var n := |record| - 1;
      CountingCopies(record[..n], alive, rung, t);
      CopiesMore(record[..n], record[n], alive, rung, t);
      CountingMore(record[..n], record[n], alive, rung);
      assert record[..n] + [record[n]] == record;
    }
  }

  lemma ScoredRanks(record: seq<Trial>, alive: seq<nat>, rung: nat)
    ensures Ranking(Scored(record, alive, rung), record, alive, rung)
  {
    var scored := Scored(record, alive, rung);
    ScoredSize(record, alive, rung);
    ScoredSorted(record, alive, rung);
    forall t
      ensures multiset(scored)[t] == |set k | k in Finishers(record, alive, rung) && record[k] == t|
    {
      CountingCopies(record, alive, rung, t);
      assert Copies(record, alive, rung, t) == set k | k in Finishers(record, alive, rung) && record[k] == t;
    }
    hide Scored, Finishers;
    assert forall i :: 0 <= i < |scored| ==> scored[i] in scored;
  }

  lemma Advancing(record: seq<Trial>, alive: seq<nat>, rung: nat, eta: int)
    requires eta != 0 && |Scored(record, alive, rung)| > 1
    ensures Advances(eta, record, alive, rung, Survivors(Scored(record, alive, rung), eta))
  {
    hide Scored, Finishers, Ranking;
    var scored := Scored(record, alive, rung);
    ScoredSize(record, alive, rung);
    ScoredRanks(record, alive, rung);
    KeepBounds(|scored|, eta);
    assert Ranking(scored, record, alive, rung);
  }

  /** Later rungs leave a rung's finishers alone. */
  lemma FinishersOn(record: seq<Trial>, longer: seq<Trial>, alive: seq<nat>, rung: nat)
    requires record <= longer && forall k :: |record| <= k < |longer| ==> longer[k].rung != rung
    ensures Finishers(longer, alive, rung) == Finishers(record, alive, rung)
    ensures forall k :: k in Finishers(record, alive, rung) ==> k < |record| && longer[k] == record[k]
  {
  }

  lemma AdvancesOn(eta: int, record: seq<Trial>, longer: seq<Trial>, alive: seq<nat>, rung: nat, next: seq<nat>)
    requires record <= longer && forall k :: |record| <= k < |longer| ==> longer[k].rung != rung
    requires Advances(eta, record, alive, rung, next)
    ensures Advances(eta, longer, alive, rung, next)
  {
    FinishersOn(record, longer, alive, rung);
    hide Finishers;
    var ranking: seq<Trial> :| Ranking(ranking, record, alive, rung) && |next| <= |ranking|
                               && forall i :: 0 <= i < |next| ==> next[i] == ranking[i].index;
    forall t
      ensures multiset(ranking)[t] == |set k | k in Finishers(longer, alive, rung) && longer[k] == t|
    {
      assert (set k | k in Finishers(longer, alive, rung) && longer[k] == t)
          == (set k | k in Finishers(record, alive, rung) && record[k] == t);
    }
    assert Ranking(ranking, longer, alive, rung);
  }

  /** What the rungs from `rung` on come to in the end. */
  ghost predicate Told(q: Search, record: seq<Trial>, n: nat, rung: nat, rounds: seq<seq<nat>>) {
    && n <= |record| && FitsOf(q, record, n, rung, rounds) && rung + |rounds| <= |q.rungs|
    && (forall j :: 0 <= j < |rounds| ==> forall i :: i in rounds[j] ==> Ran(record, i, rung + j))
    && (forall j :: 0 <= j < |rounds| - 1 ==> Advances(q.eta, record, rounds[j], rung + j, rounds[j + 1]))
    && (rounds != [] && rung + |rounds| < |q.rungs| ==>
          |Finishers(record, rounds[|rounds| - 1], rung + |rounds| - 1)| <= 1)
  }

  lemma FirstRound(q: Search, record: seq<Trial>, after: seq<Trial>, alive: seq<nat>, rung: nat)
    requires rung < |q.rungs| && record <= after && FitsOf(q, after, |record|, rung, [alive])
    requires forall i :: i in alive ==> Ran(after, i, rung)
    requires |Finishers(after, alive, rung)| <= 1 || rung == |q.rungs| - 1
    ensures Told(q, after, |record|, rung, [alive])
  {
    hide FromFit, Finishers;
  }

  lemma FitsJoin(q: Search, filled: seq<Trial>, last: seq<Trial>, n: nat, rung: nat, alive: seq<nat>,
                 later: seq<seq<nat>>)
    requires n <= |filled| && filled <= last
    requires FitsOf(q, filled, n, rung, [alive]) && FitsOf(q, last, |filled|, rung + 1, later)
    ensures FitsOf(q, last, n, rung, [alive] + later)
  {
    hide FromFit;
    var rounds := [alive] + later;
    assert forall k :: 0 <= k < |filled| ==> last[k] == filled[k];
    forall k | n <= k < |last|
      ensures && rung <= last[k].rung < rung + |rounds| && last[k].index in rounds[last[k].rung - rung]
              && FromFit(q, last[k])
    {
      if k < |filled| {
        assert filled[k].rung == rung && rounds[0] == alive;
      } else {
        assert rounds[last[k].rung - rung] == later[last[k].rung - (rung + 1)];
      }
    }
  }

  lemma RoundsJoin(q: Search, filled: seq<Trial>, last: seq<Trial>, n: nat, rung: nat, alive: seq<nat>,
                   later: seq<seq<nat>>)
    requires n <= |filled| && filled <= last && rung + 1 < |q.rungs|
    requires FitsOf(q, filled, n, rung, [alive]) && (forall i :: i in alive ==> Ran(filled, i, rung))
    requires later != [] && Advances(q.eta, filled, alive, rung, later[0]) && Told(q, last, |filled|, rung + 1, later)
    ensures Told(q, last, n, rung, [alive] + later)
  {
    hide FromFit, Advances, Finishers, Ran;
    var rounds := [alive] + later;
    FitsJoin(q, filled, last, n, rung, alive, later);
    AdvancesOn(q.eta, filled, last, alive, rung, later[0]);
    forall j, i | 0 <= j < |rounds| && i in rounds[j]
      ensures Ran(last, i, rung + j)
    {
      if j == 0 {
        RanOn(filled, last, i, rung);
      } else {
        assert rounds[j] == later[j - 1] && rung + j == rung + 1 + (j - 1);
      }
    }
    forall j | 0 <= j < |rounds| - 1
      ensures Advances(q.eta, last, rounds[j], rung + j, rounds[j + 1])
    {
      if j > 0 {
        assert rounds[j] == later[j - 1] && rounds[j + 1] == later[j] && rung + j == rung + 1 + (j - 1);
      }
    }
    assert rounds[|rounds| - 1] == later[|later| - 1] && rung + |rounds| - 1 == rung + 1 + |later| - 1;
  }

  lemma {:induction false} FromTells(q: Search, record: seq<Trial>, alive: seq<nat>, rung: nat)
    returns (rounds: seq<seq<nat>>)
    requires q.eta != 0 && rung <= |q.rungs|
    ensures record <= From(q, record, alive, rung)
    ensures Told(q, From(q, record, alive, rung), |record|, rung, rounds)
    ensures if rung < |q.rungs| then rounds != [] && rounds[0] == alive else rounds == []
    decreases |q.rungs| - rung
  {
    hide Fill, Scored, Survivors, FitsOf, Told, Ran;
    rounds := [];
    if rung == |q.rungs| {
      NothingTold(q, record, rung);
    } else {
      FillFits(q, record, alive, rung);
      var filled := Fill(q, record, alive, rung);
      var scored := Scored(filled, alive, rung);
      ScoredSize(filled, alive, rung);
      if |scored| <= 1 || rung == |q.rungs| - 1 {
        FirstRound(q, record, filled, alive, rung);
        rounds := [alive];
      } else {
        Advancing(filled, alive, rung, q.eta);
        var later := FromTells(q, filled, Survivors(scored, q.eta), rung + 1);
        RoundsJoin(q, filled, From(q, filled, Survivors(scored, q.eta), rung + 1), |record|, rung, alive, later);
        rounds := [alive] + later;
      }
    }
  }

  lemma NothingTold(q: Search, record: seq<Trial>, rung: nat)
    requires rung == |q.rungs|
    ensures Told(q, record, |record|, rung, [])
  {
  }

  /** What the search makes of the record it is given, told without how it goes about it: there are rounds of
      candidates, the first all of them. Every trial added is a fit of its own draw at its rung's capacity, made for
      a candidate of that rung's round and for none recorded before; every candidate of a round has been run; each
      round after the first is the best `max(1, n // eta)` of the `n` that finished the one before; and the last
      round is of the last rung, or no more than one finished it. */
  lemma SearchTells(q: Search, done: seq<Trial>) returns (rounds: seq<seq<nat>>)
    requires q.eta != 0
    ensures done <= Resumed(q, done)
    ensures Told(q, Resumed(q, done), |done|, 0, rounds)
    ensures if q.rungs == [] then rounds == [] else rounds != [] && rounds[0] == seq(q.trials, i => i)
  {
    hide From, Told;
    rounds := FromTells(q, done, Range(q.trials), 0);
    assert Range(q.trials) == seq(q.trials, i => i);
  }
}
