/**
 The resumable hyperparameter search of `eval/synth/tuning.py`: successive halving over rungs, with
 every trial recorded and none run twice.
 */
module Halving {
  import opened Sorting
  import opened Wrappers

  /** A loss as the search sees it: NaN and the infinities only ever exclude a trial. */
  datatype Loss = Finite(value: real) | NonFinite

  type Params = map<string, real>

  datatype Fit = Fitted(valid: Loss, train: Loss, best: int) | Raised

  datatype Trial = Trial(index: nat, rung: nat, capacity: int, params: Params, best: int, train: Loss,
                            valid: Loss, done: bool)
  {
    /** A trial that counts: it ended, with a finite validation loss. */
    predicate Finished() {
      done && valid.Finite?
    }
  }

  /** A search: its trials are drawn and fitted as a function of their index and capacity. */
  datatype Search = Search(draw: nat -> Params, fit: (Params, int) -> Fit, trials: nat, rungs: seq<int>, eta: int)

  function TrialOf(q: Search, index: nat, rung: nat): (t: Trial)
    requires rung < |q.rungs|
    ensures t.index == index && t.rung == rung
  {
    var params := q.draw(index);
    match q.fit(params, q.rungs[rung])
    case Fitted(valid, train, best) => Trial(index, rung, q.rungs[rung], params, best, train, valid, true)
    case Raised => Trial(index, rung, q.rungs[rung], params, 0, NonFinite, NonFinite, false)
  }

  /** The trial is a fit of what was drawn for its index at its rung's capacity: the validation loss, the training
      loss and the best round are the ones that fit gave, or it failed as that fit did. */
  ghost predicate FromFit(q: Search, t: Trial) {
    && t.rung < |q.rungs| && t.capacity == q.rungs[t.rung] && t.params == q.draw(t.index)
    && match q.fit(q.draw(t.index), q.rungs[t.rung])
       case Fitted(valid, train, best) => t.done && t.valid == valid && t.train == train && t.best == best
       case Raised => !t.done && t.valid == NonFinite && t.train == NonFinite && t.best == 0
  }

  lemma TrialFromFit(q: Search, index: nat, rung: nat)
    requires rung < |q.rungs|
    ensures FromFit(q, TrialOf(q, index, rung))
  {
  }

  predicate Ran(record: seq<Trial>, index: nat, rung: nat) {
    exists k :: 0 <= k < |record| && record[k].index == index && record[k].rung == rung
  }

  /** One rung: every candidate not in the record yet is run, in order. */
  function Fill(q: Search, record: seq<Trial>, alive: seq<nat>, rung: nat): seq<Trial>
    requires rung < |q.rungs|
  {
    if alive == [] then record
    else
      var before := Fill(q, record, alive[..|alive| - 1], rung);
      var index := alive[|alive| - 1];
      if Ran(before, index, rung) then before else before + [TrialOf(q, index, rung)]
  }

  /** `(valid_loss, index)`, compared as the source's sort and min compare it. */
  predicate Leq(t: Trial, u: Trial) {
    && t.Finished() && u.Finished()
    && (t.valid.value < u.valid.value || (t.valid.value == u.valid.value && t.index <= u.index))
  }

  predicate Counts(t: Trial, alive: seq<nat>, rung: nat) {
    t.rung == rung && t.index in alive && t.Finished()
  }

  /** The finished trials of a rung's candidates, as they were recorded. */
  function Counting(record: seq<Trial>, alive: seq<nat>, rung: nat): (s: seq<Trial>)
    ensures forall t :: t in s <==> t in record && Counts(t, alive, rung)
    ensures |s| <= |record|
  {
    if record == [] then []
    else
      var t := record[|record| - 1];
      var before := Counting(record[..|record| - 1], alive, rung);
      assert record == record[..|record| - 1] + [t];
      if Counts(t, alive, rung) then before + [t] else before
  }

  /** ... best first. */
  function Scored(record: seq<Trial>, alive: seq<nat>, rung: nat): (s: seq<Trial>)
    ensures forall t :: t in s <==> t in record && Counts(t, alive, rung)
    ensures |s| <= |record|
  {
    Sort(Counting(record, alive, rung), Leq)
  }

  /** `max(1, len(scored) // eta)`, the division flooring as Python's does. */
  function Keep(n: nat, eta: int): nat
    requires eta != 0
  {
    if eta < 0 || n / eta < 1 then 1 else n / eta
  }

  function Indices(s: seq<Trial>): seq<nat> {
    seq(|s|, i requires 0 <= i < |s| => s[i].index)
  }

  /** The rungs from `rung` on. */
  function From(q: Search, record: seq<Trial>, alive: seq<nat>, rung: nat): seq<Trial>
    requires q.eta != 0
    decreases |q.rungs| - rung
  {
    if rung >= |q.rungs| then record
    else
      var filled := Fill(q, record, alive, rung);
      var scored := Scored(filled, alive, rung);
      if |scored| <= 1 || rung == |q.rungs| - 1 then filled
      else From(q, filled, Survivors(scored, q.eta), rung + 1)
  }

  /** The indices that advance. */
  function Survivors(scored: seq<Trial>, eta: int): seq<nat>
    requires eta != 0 && |scored| >= 1
  {
    KeepBounds(|scored|, eta);
    Indices(scored[..Keep(|scored|, eta)])
  }

  lemma KeepBounds(n: nat, eta: int)
    requires eta != 0 && n >= 1
    ensures 1 <= Keep(n, eta) <= n
  {
    if eta > 0 {
      Quotient(n, eta);
    }
  }

  lemma Quotient(n: nat, eta: int)
    requires eta > 0
    ensures 0 <= n / eta <= n && eta * (n / eta) <= n
  {
    Divide(n, eta, n / eta, n % eta);
  }

  lemma Divide(n: nat, eta: int, k: int, left: int)
    requires eta > 0 && n == eta * k + left && 0 <= left < eta
    ensures 0 <= k <= n && eta * k <= n
  {
    if k >= 0 {
      assert (eta - 1) * k >= 0;
      assert eta * k == (eta - 1) * k + k;
    }
  }

  function Range(n: nat): seq<nat> {
    seq(n, i => i)
  }

  /** The whole search, resumed from `done`. */
  function Resumed(q: Search, done: seq<Trial>): seq<Trial>
    requires q.eta != 0
  {
    From(q, done, Range(q.trials), 0)
  }

  // ---------- the loop ----------

  /** `halving`; `called` is what `on_trial` is handed, in order. With an `eta` of 0 the division fails once
      a first rung has been run and a second one is due. */
  method Run(q: Search, done: seq<Trial>) returns (record: seq<Trial>, called: seq<Trial>, failed: bool)
    ensures record == done + called
    ensures forall t :: t in called ==> FromFit(q, t)
    ensures q.eta != 0 ==> record == Resumed(q, done) && !failed
    ensures q.eta == 0 && q.rungs == [] ==> record == done && !failed
    ensures q.eta == 0 && q.rungs != [] ==>
              && record == Fill(q, done, Range(q.trials), 0)
              && (failed <==> |q.rungs| > 1 && |Scored(record, Range(q.trials), 0)| > 1)
  {
    hide TrialOf, Ran, Scored, Survivors, FromFit;
    record, called, failed := done, [], false;
    var alive := Range(q.trials);
    var rung := 0;
    while rung < |q.rungs|
      invariant 0 <= rung <= |q.rungs|
      invariant q.eta != 0 ==> From(q, record, alive, rung) == Resumed(q, done)
      invariant q.eta == 0 ==> rung == 0 && record == done && alive == Range(q.trials)
      invariant record == done + called && !failed && forall t :: t in called ==> FromFit(q, t)
    {
      ghost var before := record;
      for i := 0 to |alive|
        invariant record == Fill(q, before, alive[..i], rung)
        invariant record == done + called && forall t :: t in called ==> FromFit(q, t)
      {
        assert alive[..i + 1][..i] == alive[..i];
        if !Ran(record, alive[i], rung) {
          var trial := TrialOf(q, alive[i], rung);
          TrialFromFit(q, alive[i], rung);
          record := record + [trial];
          called := called + [trial];
        }
      }
      assert alive[..|alive|] == alive;
      var scored := Scored(record, alive, rung);
      if |scored| <= 1 || rung == |q.rungs| - 1 {
        return;
      }
      if q.eta == 0 {
        failed := true;
        return;
      }
      alive := Survivors(scored, q.eta);
      rung := rung + 1;
    }
  }

  // ---------- resuming an interrupted run ----------

  lemma {:induction false} FillExtends(q: Search, record: seq<Trial>, alive: seq<nat>, rung: nat)
    requires rung < |q.rungs|
    ensures record <= Fill(q, record, alive, rung)
    ensures forall k :: |record| <= k < |Fill(q, record, alive, rung)| ==>
              var t := Fill(q, record, alive, rung)[k]; t.rung == rung && t.index in alive
    ensures forall i :: i in alive ==> Ran(Fill(q, record, alive, rung), i, rung)
  {
    if alive != [] {
      var rest, index := alive[..|alive| - 1], alive[|alive| - 1];
      assert alive == rest + [index];
      FillExtends(q, record, rest, rung);
      var before := Fill(q, record, rest, rung);
      var after := Fill(q, record, alive, rung);
      forall i | i in alive
        ensures Ran(after, i, rung)
      {
        if i in rest {
          var k :| 0 <= k < |before| && before[k].index == i && before[k].rung == rung;
          assert after[k] == before[k];
        } else if !Ran(before, i, rung) {
          assert after[|before|] == TrialOf(q, i, rung);
        }
      }
    }
  }

  /** A rung whose candidates all ran adds nothing. */
  lemma {:induction false} FillNothing(q: Search, record: seq<Trial>, alive: seq<nat>, rung: nat)
    requires rung < |q.rungs| && forall i :: i in alive ==> Ran(record, i, rung)
    ensures Fill(q, record, alive, rung) == record
  {
    if alive != [] {
      assert alive[|alive| - 1] in alive;
      FillNothing(q, record, alive[..|alive| - 1], rung);
    }
  }

  lemma RanOn(record: seq<Trial>, longer: seq<Trial>, index: nat, rung: nat)
    requires record <= longer && Ran(record, index, rung)
    ensures Ran(longer, index, rung)
  {
    var k :| 0 <= k < |record| && record[k].index == index && record[k].rung == rung;
    assert longer[k] == record[k];
  }

  lemma {:induction false} FillResumes(q: Search, record: seq<Trial>, cut: seq<Trial>, alive: seq<nat>, rung: nat)
    requires rung < |q.rungs| && record <= cut <= Fill(q, record, alive, rung)
    ensures Fill(q, cut, alive, rung) == Fill(q, record, alive, rung)
  {
    if alive != [] {
      var rest := alive[..|alive| - 1];
      var before := Fill(q, record, rest, rung);
      if cut <= before {
        FillResumes(q, record, cut, rest, rung);
      } else {
        assert cut == Fill(q, record, alive, rung);
        FillExtends(q, record, alive, rung);
        FillNothing(q, cut, alive, rung);
      }
    }
  }

  lemma {:induction false} FromExtends(q: Search, record: seq<Trial>, alive: seq<nat>, rung: nat)
    requires q.eta != 0
    ensures record <= From(q, record, alive, rung)
    ensures forall k :: |record| <= k < |From(q, record, alive, rung)| ==>
              From(q, record, alive, rung)[k].rung >= rung
    decreases |q.rungs| - rung
  {
    if rung < |q.rungs| {
      FillExtends(q, record, alive, rung);
      var filled := Fill(q, record, alive, rung);
      var scored := Scored(filled, alive, rung);
      if !(|scored| <= 1 || rung == |q.rungs| - 1) {
        FromExtends(q, filled, Survivors(scored, q.eta), rung + 1);
      }
    }
  }

  /** Later rungs leave a rung's scores alone. */
  lemma {:induction false} CountingOn(record: seq<Trial>, longer: seq<Trial>, alive: seq<nat>, rung: nat)
    requires record <= longer && forall k :: |record| <= k < |longer| ==> longer[k].rung != rung
    ensures Counting(longer, alive, rung) == Counting(record, alive, rung)
    ensures Scored(longer, alive, rung) == Scored(record, alive, rung)
  {
    if |record| < |longer| {
      var shorter := longer[..|longer| - 1];
      assert record <= shorter;
      CountingOn(record, shorter, alive, rung);
    } else {
      assert record == longer;
    }
  }

  lemma {:induction false} FromResumes(q: Search, record: seq<Trial>, cut: seq<Trial>, alive: seq<nat>, rung: nat)
    requires q.eta != 0 && record <= cut <= From(q, record, alive, rung)
    ensures From(q, cut, alive, rung) == From(q, record, alive, rung)
    decreases |q.rungs| - rung
  {
    hide Fill, Scored, Survivors, Ran;
    if rung < |q.rungs| {
      FillExtends(q, record, alive, rung);
      var filled := Fill(q, record, alive, rung);
      var scored := Scored(filled, alive, rung);
      if |cut| <= |filled| {
        if !(|scored| <= 1 || rung == |q.rungs| - 1) {
          FromExtends(q, filled, Survivors(scored, q.eta), rung + 1);
        }
        assert cut <= filled;
        FillResumes(q, record, cut, alive, rung);
      } else {
        FromExtends(q, filled, Survivors(scored, q.eta), rung + 1);
        assert filled <= cut;
        forall i | i in alive
          ensures Ran(cut, i, rung)
        {
          RanOn(filled, cut, i, rung);
        }
        FillNothing(q, cut, alive, rung);
        CountingOn(filled, cut, alive, rung);
        FromResumes(q, filled, cut, Survivors(scored, q.eta), rung + 1);
      }
    }
  }

  /** Wherever a run is interrupted - itself a resumed one or not - resuming it from what it had recorded
      ends in the very record it was going to make. */
  lemma InterruptionLeavesNoTrace(q: Search, done: seq<Trial>, cut: seq<Trial>)
    requires q.eta != 0 && done <= cut <= Resumed(q, done)
    ensures Resumed(q, cut) == Resumed(q, done)
  {
    FromResumes(q, done, cut, Range(q.trials), 0);
  }

  // ---------- sorting ----------

  ghost predicate Sorted(s: seq<Trial>) {
    && (forall t :: t in s ==> t.Finished())
    && SortedBy(s, Leq)
  }

  ghost predicate Unique(s: seq<Trial>) {
    forall i, j :: 0 <= i < j < |s| ==> !(s[i].index == s[j].index && s[i].rung == s[j].rung)
  }

  lemma ScoredSorted(record: seq<Trial>, alive: seq<nat>, rung: nat)
    ensures Sorted(Scored(record, alive, rung))
  {
    SortSorts(Counting(record, alive, rung), Leq);
  }

  // ---------- resuming from any of a search's trials ----------

  /** Every trial is what the search would record for its index and rung. */
  ghost predicate Honest(q: Search, record: seq<Trial>) {
    forall t :: t in record ==> t.rung < |q.rungs| && t == TrialOf(q, t.index, t.rung)
  }

  ghost function Elems(record: seq<Trial>): set<Trial> {
    set t | t in record
  }

  ghost function At(q: Search, alive: seq<nat>, rung: nat): set<Trial>
    requires rung < |q.rungs|
  {
    set i | i in alive :: TrialOf(q, i, rung)
  }

  lemma {:induction false} FillHonest(q: Search, record: seq<Trial>, alive: seq<nat>, rung: nat)
    requires rung < |q.rungs| && Honest(q, record) && Unique(record)
    ensures Honest(q, Fill(q, record, alive, rung)) && Unique(Fill(q, record, alive, rung))
    ensures Elems(Fill(q, record, alive, rung)) == Elems(record) + At(q, alive, rung)
  {
    hide Honest, Unique, Elems, At, Ran, TrialOf;
    if alive == [] {
      AtNone(q, rung);
    } else {
      var rest, index := alive[..|alive| - 1], alive[|alive| - 1];
      assert alive == rest + [index];
      FillHonest(q, record, rest, rung);
      AtOneMore(q, rest, index, rung);
      RunHonest(q, Fill(q, record, rest, rung), index, rung);
    }
  }

  lemma AtNone(q: Search, rung: nat)
    requires rung < |q.rungs|
    ensures At(q, [], rung) == {}
  {
  }

  lemma AtOneMore(q: Search, alive: seq<nat>, index: nat, rung: nat)
    requires rung < |q.rungs|
    ensures At(q, alive + [index], rung) == At(q, alive, rung) + {TrialOf(q, index, rung)}
  {
  }

  /** Running one candidate, unless it ran before, puts its trial in the record. */
  lemma RunHonest(q: Search, record: seq<Trial>, index: nat, rung: nat)
    requires rung < |q.rungs| && Honest(q, record) && Unique(record)
    ensures var t := TrialOf(q, index, rung);
            var after := if Ran(record, index, rung) then record else record + [t];
            Honest(q, after) && Unique(after) && Elems(after) == Elems(record) + {t}
  {
    hide TrialOf;
    var t := TrialOf(q, index, rung);
    if Ran(record, index, rung) {
      var k :| 0 <= k < |record| && record[k].index == index && record[k].rung == rung;
      assert record[k] in record;
      assert t in Elems(record);
    } else {
      assert Elems(record + [t]) == Elems(record) + {t};
    }
  }

  /** Two strictly sorted lists of the same trials are the same list. */
  lemma {:induction false} SortedEqual(s: seq<Trial>, u: seq<Trial>)
    requires Sorted(s) && Sorted(u) && Unique(s) && Unique(u) && Elems(s) == Elems(u)
    requires forall a, b :: a in s && b in s ==> a.rung == b.rung
    ensures s == u
  {
    NoElems(s);
    NoElems(u);
    if s != [] && u != [] {
      FirstEqual(s, u);
      Tail(s);
      Tail(u);
      hide Sorted, Unique, Elems;
      SortedEqual(s[1..], u[1..]);
      assert s == [s[0]] + s[1..] && u == [u[0]] + u[1..];
    }
  }

  lemma FirstEqual(s: seq<Trial>, u: seq<Trial>)
    requires Sorted(s) && Sorted(u) && Unique(s) && Elems(s) == Elems(u) && s != [] && u != []
    requires forall a, b :: a in s && b in s ==> a.rung == b.rung
    ensures s[0] == u[0]
  {
    assert s[0] in Elems(u) && u[0] in Elems(s);
    var i :| 0 <= i < |u| && u[i] == s[0];
    var j :| 0 <= j < |s| && s[j] == u[0];
    assert s[0].rung == s[j].rung;
  }

  lemma NoElems(s: seq<Trial>)
    ensures Elems(s) == {} <==> s == []
  {
    if s != [] {
      assert s[0] in Elems(s);
    }
  }

  lemma Tail(s: seq<Trial>)
    requires s != [] && Sorted(s) && Unique(s)
    ensures Sorted(s[1..]) && Unique(s[1..]) && Elems(s[1..]) == Elems(s) - {s[0]}
    ensures forall t :: t in s[1..] ==> t in s
  {
    var rest := s[1..];
    assert forall i :: 0 <= i < |rest| ==> rest[i] == s[i + 1];
    assert s == [s[0]] + rest;
    assert forall i :: 0 <= i < |rest| ==> rest[i] != s[0];
  }

  predicate Another(t: Trial, u: Trial) {
    !(t.index == u.index && t.rung == u.rung)
  }

  lemma {:induction false} CountingUnique(record: seq<Trial>, alive: seq<nat>, rung: nat)
    requires Unique(record)
    ensures Unique(Counting(record, alive, rung))
  {
    if record != [] {
      var t, rest := record[|record| - 1], record[..|record| - 1];
      CountingUnique(rest, alive, rung);
      var before := Counting(rest, alive, rung);
      forall i | 0 <= i < |before|
        ensures Another(before[i], t)
      {
        assert before[i] in before;
        var k :| 0 <= k < |rest| && rest[k] == before[i];
      }
    }
  }

  lemma ScoredUnique(record: seq<Trial>, alive: seq<nat>, rung: nat)
    requires Unique(record)
    ensures Unique(Scored(record, alive, rung))
  {
    CountingUnique(record, alive, rung);
    var counting := Counting(record, alive, rung);
    assert Pairwise(counting, Another);
    SortPairwise(counting, Leq, Another);
    var scored := Sort(counting, Leq);
    assert forall i, j :: 0 <= i < j < |scored| ==> Another(scored[i], scored[j]);
  }

  /** A filled rung scores the same whatever else the record holds. */
  lemma ScoresAgree(q: Search, a: seq<Trial>, b: seq<Trial>, alive: seq<nat>, rung: nat)
    requires rung < |q.rungs| && Honest(q, a) && Honest(q, b) && Unique(a) && Unique(b)
    requires At(q, alive, rung) <= Elems(a) && At(q, alive, rung) <= Elems(b)
    ensures Scored(a, alive, rung) == Scored(b, alive, rung)
  {
    var s, u := Scored(a, alive, rung), Scored(b, alive, rung);
    ScoredSorted(a, alive, rung);
    ScoredSorted(b, alive, rung);
    ScoredUnique(a, alive, rung);
    ScoredUnique(b, alive, rung);
    forall t | t in s || t in u
      ensures t in s && t in u
    {
      assert t == TrialOf(q, t.index, rung);
      assert t in At(q, alive, rung);
      assert t in Elems(a) && t in Elems(b);
    }
    assert Elems(s) == Elems(u);
    SortedEqual(s, u);
  }

  lemma NoTrials(q: Search)
    ensures Honest(q, []) && Unique([]) && Elems([]) == {}
  {
  }

  lemma {:induction false} FromHonest(q: Search, record: seq<Trial>, alive: seq<nat>, rung: nat)
    requires q.eta != 0 && Honest(q, record) && Unique(record)
    ensures Honest(q, From(q, record, alive, rung)) && Unique(From(q, record, alive, rung))
    ensures Elems(From(q, record, alive, rung)) == Elems(record) + Elems(From(q, [], alive, rung))
    decreases |q.rungs| - rung
  {
    hide Fill, Scored, Survivors, Honest, Unique, At, Elems;
    NoTrials(q);
    if rung < |q.rungs| {
      FillHonest(q, record, alive, rung);
      FillHonest(q, [], alive, rung);
      var filled, bare := Fill(q, record, alive, rung), Fill(q, [], alive, rung);
      ScoresAgree(q, filled, bare, alive, rung);
      var scored := Scored(filled, alive, rung);
      if !(|scored| <= 1 || rung == |q.rungs| - 1) {
        var next := Survivors(scored, q.eta);
        FromHonest(q, filled, next, rung + 1);
        FromHonest(q, bare, next, rung + 1);
      }
    }
  }

  // ---------- the winner ----------

  function Top(record: seq<Trial>): Option<nat> {
    if record == [] then None
    else
      var t, before := record[|record| - 1], Top(record[..|record| - 1]);
      if t.Finished() && (before == None || before.value < t.rung) then Some(t.rung) else before
  }

  function Least(record: seq<Trial>, rung: nat): (least: Option<Trial>)
    ensures least.Some? ==> least.value in record && least.value.Finished() && least.value.rung == rung
  {
    if record == [] then None
    else
      var t, before := record[|record| - 1], Least(record[..|record| - 1], rung);
      if t.Finished() && t.rung == rung && (before == None || !Leq(before.value, t)) then Some(t) else before
  }

  /** `best`; `None` is its refusal when nothing finished. */
  function Best(record: seq<Trial>): Option<Trial> {
    var top := Top(record);
    if top == None then None else Least(record, top.value)
  }

  /** What the winner is: the lowest loss, then index, of the finished trials at the highest rung. */
  ghost predicate Wins(t: Trial, record: seq<Trial>) {
    && t in record && t.done && t.valid.Finite?
    && forall u :: u in record && u.done && u.valid.Finite? ==>
         || u.rung < t.rung
         || (u.rung == t.rung
             && (t.valid.value < u.valid.value || (t.valid.value == u.valid.value && t.index <= u.index)))
  }

  lemma {:induction false} TopIs(record: seq<Trial>)
    ensures Top(record) == None <==> forall t :: t in record ==> !t.Finished()
    ensures Top(record) != None ==>
              && (forall t :: t in record && t.Finished() ==> t.rung <= Top(record).value)
              && (exists t :: t in record && t.Finished() && t.rung == Top(record).value)
  {
    if record != [] {
      var rest, t := record[..|record| - 1], record[|record| - 1];
      TopIs(rest);
      assert record == rest + [t];
      assert t in record;
    }
  }

  lemma {:induction false} LeastIs(record: seq<Trial>, rung: nat)
    ensures Least(record, rung) == None <==> forall t :: t in record ==> !(t.Finished() && t.rung == rung)
    ensures Least(record, rung) != None ==>
              forall t :: t in record && t.Finished() && t.rung == rung ==> Leq(Least(record, rung).value, t)
  {
    if record != [] {
      var rest, t := record[..|record| - 1], record[|record| - 1];
      LeastIs(rest, rung);
      assert record == rest + [t];
      assert t in record;
    }
  }

  lemma BestWins(record: seq<Trial>)
    ensures Best(record) == None <==> forall t :: t in record ==> !(t.done && t.valid.Finite?)
    ensures Best(record) != None ==> Wins(Best(record).value, record)
  {
    TopIs(record);
    if Top(record) != None {
      LeastIs(record, Top(record).value);
    }
  }

  lemma SameBest(q: Search, a: seq<Trial>, b: seq<Trial>)
    requires Honest(q, a) && Elems(a) == Elems(b)
    ensures Best(a) == Best(b)
  {
    BestWins(a);
    BestWins(b);
    assert forall t :: t in a <==> t in Elems(a);
    assert forall t :: t in b <==> t in Elems(b);
    if Best(a) != None {
      var t, u := Best(a).value, Best(b).value;
      assert t.rung == u.rung && t.index == u.index;
    }
  }

  /** Handed any of a full run's trials, in any order, the search ends with that run's trials, each once,
      and with its winner. */
  lemma AnySubsetResumes(q: Search, done: seq<Trial>)
    requires q.eta != 0 && Unique(done) && forall t :: t in done ==> t in Resumed(q, [])
    ensures Unique(Resumed(q, done)) && Elems(Resumed(q, done)) == Elems(Resumed(q, []))
    ensures Best(Resumed(q, done)) == Best(Resumed(q, []))
  {
    var full := Resumed(q, []);
    FromHonest(q, [], Range(q.trials), 0);
    FromHonest(q, done, Range(q.trials), 0);
    assert Elems(done) <= Elems(full);
    SameBest(q, Resumed(q, done), full);
  }

  // ---------- who advances, and what it costs ----------

  /** The positions of a rung's finished candidates in the record. */
  ghost function Finishers(record: seq<Trial>, alive: seq<nat>, rung: nat): set<nat> {
    set k: nat | k < |record| && record[k].rung == rung && record[k].index in alive
                 && record[k].done && record[k].valid.Finite?
  }

  lemma FinishersMore(record: seq<Trial>, t: Trial, alive: seq<nat>, rung: nat)
    ensures |Finishers(record + [t], alive, rung)| ==
            |Finishers(record, alive, rung)| + if Counts(t, alive, rung) then 1 else 0
  {
    var n := |record|;
    assert Finishers(record + [t], alive, rung) ==
           Finishers(record, alive, rung) + (if Counts(t, alive, rung) then {n} else {});
  }

  lemma {:induction false} CountingSize(record: seq<Trial>, alive: seq<nat>, rung: nat)
    ensures |Counting(record, alive, rung)| == |Finishers(record, alive, rung)|
  {
    if record == [] {
      assert Finishers(record, alive, rung) == {};
    } else {
      hide Finishers, Counts;
      var n := |record| - 1;
      CountingSize(record[..n], alive, rung);
      FinishersMore(record[..n], record[n], alive, rung);
      assert record[..n] + [record[n]] == record;
    }
  }

  lemma ScoredSize(record: seq<Trial>, alive: seq<nat>, rung: nat)
    ensures |Scored(record, alive, rung)| == |Finishers(record, alive, rung)|
  {
    CountingSize(record, alive, rung);
  }

  /** Of `n` finished candidates `max(1, n // eta)` advance, the division flooring, and one that is dropped has no
      smaller a loss, and with the same loss no smaller an index, than any that advances. */
  lemma SurvivorsBeatTheDropped(record: seq<Trial>, alive: seq<nat>, rung: nat, eta: int, t: Trial, u: Trial)
    requires eta != 0 && Unique(record)
    requires t in record && t.rung == rung && t.index in alive && t.done && t.valid.Finite?
    requires u in record && u.rung == rung && u.index in alive && u.done && u.valid.Finite?
    ensures var n := |Finishers(record, alive, rung)|;
            var kept := Survivors(Scored(record, alive, rung), eta);
            && |kept| == (if eta > 0 && n / eta >= 1 then n / eta else 1)
            && (t.index in kept && u.index !in kept ==>
                  t.valid.value < u.valid.value || (t.valid.value == u.valid.value && t.index <= u.index))
  {
    var scored := Scored(record, alive, rung);
    ScoredSorted(record, alive, rung);
    ScoredUnique(record, alive, rung);
    ScoredSize(record, alive, rung);
    assert t in scored && u in scored;
    hide Scored, Finishers;
    KeptFirst(scored, eta, t, u);
  }

  lemma KeptFirst(scored: seq<Trial>, eta: int, t: Trial, u: Trial)
    requires eta != 0 && Sorted(scored) && Unique(scored) && t in scored && u in scored
    requires forall x :: x in scored ==> x.rung == t.rung
    ensures |Survivors(scored, eta)| == Keep(|scored|, eta)
    ensures t.index in Survivors(scored, eta) && u.index !in Survivors(scored, eta) ==> Leq(t, u)
  {
    var kept := Survivors(scored, eta);
    KeepBounds(|scored|, eta);
    forall x | 0 <= x < |kept|
      ensures scored[x].index in kept
    {
      assert kept[x] == scored[x].index;
    }
    if t.index in kept && u.index !in kept {
      var i :| 0 <= i < |scored| && scored[i] == t;
      var j :| 0 <= j < |scored| && scored[j] == u;
      var k :| 0 <= k < |kept| && kept[k] == t.index;
      assert scored[k].index == t.index && scored[k] in scored;
      assert i == k;
    }
  }

  ghost function SetOf(ys: seq<nat>): set<nat> {
    set y | y in ys
  }

  lemma {:induction false} SetOfSize(ys: seq<nat>)
    ensures |SetOf(ys)| <= |ys|
  {
    if ys == [] {
      assert SetOf(ys) == {};
    } else {
      var rest, last := ys[..|ys| - 1], ys[|ys| - 1];
      SetOfSize(rest);
      assert ys == rest + [last];
      assert SetOf(ys) == SetOf(rest) + {last};
    }
  }

  lemma NoMore(xs: seq<nat>, ys: seq<nat>)
    requires Distinct(xs) && forall x :: x in xs ==> x in ys
    ensures |xs| <= |ys|
  {
    SetOfSize(ys);
    if |xs| > |SetOf(ys)| {
      Pigeonhole(xs, SetOf(ys));
    }
  }

  /** At most one finished trial per candidate, so at most `max(1, n // eta)` of `n` candidates advance. */
  lemma Advancing(record: seq<Trial>, alive: seq<nat>, rung: nat, eta: int)
    requires eta >= 2 && Unique(record) && |Scored(record, alive, rung)| > 1
    ensures var next := Survivors(Scored(record, alive, rung), eta);
            && Distinct(next) && |next| >= 1 && |alive| > 1
            && (|next| == 1 || eta * |next| <= |alive|)
  {
    var scored := Scored(record, alive, rung);
    ScoredUnique(record, alive, rung);
    var indices := Indices(scored);
    assert Distinct(indices) by {
      assert forall i :: 0 <= i < |scored| ==> scored[i] in scored && Counts(scored[i], alive, rung);
    }
    forall x | x in indices
      ensures x in alive
    {
      var i :| 0 <= i < |scored| && scored[i].index == x;
      assert scored[i] in scored;
    }
    NoMore(indices, alive);
    KeepBounds(|scored|, eta);
    Quotient(|scored|, eta);
    var next := Survivors(scored, eta);
    assert forall i :: 0 <= i < |next| ==> next[i] == indices[i];
  }

  lemma {:induction false} FillCost(q: Search, record: seq<Trial>, alive: seq<nat>, rung: nat)
    requires rung < |q.rungs|
    ensures |Fill(q, record, alive, rung)| - |record| <= |alive|
  {
    if alive != [] {
      FillCost(q, record, alive[..|alive| - 1], rung);
    }
  }

  lemma {:induction false} FillUnique(q: Search, record: seq<Trial>, alive: seq<nat>, rung: nat)
    requires rung < |q.rungs| && Unique(record)
    ensures Unique(Fill(q, record, alive, rung))
  {
    if alive != [] {
      FillUnique(q, record, alive[..|alive| - 1], rung);
    }
  }

  /** With `m` rungs to go and `n` candidates, at most `n * eta / (eta - 1) + m` fits. */
  lemma Budget(eta: int, n: int, next: int, made: int, later: int, m: int)
    requires eta >= 2 && n > 1 && next >= 1 && (next == 1 || eta * next <= n)
    requires made <= n && (eta - 1) * later <= next * eta + (m - 1) * (eta - 1)
    ensures (eta - 1) * (made + later) <= n * eta + m * (eta - 1)
  {
    assert (eta - 1) * made <= (eta - 1) * n;
    assert (eta - 1) * (made + later) == (eta - 1) * made + (eta - 1) * later;
    assert (eta - 1) * n == eta * n - n;
    assert (m - 1) * (eta - 1) == m * (eta - 1) - (eta - 1);
    assert next == 1 ==> next * eta == eta;
  }

  lemma {:induction false} FromCost(q: Search, record: seq<Trial>, alive: seq<nat>, rung: nat)
    requires q.eta >= 2 && Unique(record) && rung < |q.rungs|
    ensures (q.eta - 1) * (|From(q, record, alive, rung)| - |record|)
            <= |alive| * q.eta + (|q.rungs| - rung) * (q.eta - 1)
    decreases |q.rungs| - rung
  {
    hide Fill, Scored, Survivors, Unique, Distinct;
    var filled := Fill(q, record, alive, rung);
    FillCost(q, record, alive, rung);
    FillUnique(q, record, alive, rung);
    var scored := Scored(filled, alive, rung);
    var made := |filled| - |record|;
    if |scored| <= 1 || rung == |q.rungs| - 1 {
      Product(q.eta, |alive|, made, |q.rungs| - rung);
    } else {
      Advancing(filled, alive, rung, q.eta);
      var next := Survivors(scored, q.eta);
      FromCost(q, filled, next, rung + 1);
      var later := |From(q, filled, next, rung + 1)| - |filled|;
      Budget(q.eta, |alive|, |next|, made, later, |q.rungs| - rung);
      assert From(q, record, alive, rung) == From(q, filled, next, rung + 1);
    }
  }

  lemma Product(eta: int, n: nat, made: int, m: nat)
    requires eta >= 2 && made <= n
    ensures (eta - 1) * made <= n * eta + m * (eta - 1)
  {
    assert (eta - 1) * made <= (eta - 1) * n;
    assert (eta - 1) * n == n * eta - n;
    assert m * (eta - 1) >= 0;
  }

  lemma NoRungs(q: Search, done: seq<Trial>)
    requires q.eta != 0 && q.rungs == []
    ensures Resumed(q, done) == done
  {
  }

  /** Resumed from any record without repetitions, the search makes at most
      `trials * eta / (eta - 1) + len(rungs)` fits. */
  lemma FitsAreBounded(q: Search, done: seq<Trial>)
    requires q.eta >= 2 && Unique(done)
    ensures (q.eta - 1) * (|Resumed(q, done)| - |done|) <= q.trials * q.eta + |q.rungs| * (q.eta - 1)
  {
    hide From;
    assert |Range(q.trials)| * q.eta == q.trials * q.eta;
    if q.rungs == [] {
      NoRungs(q, done);
      Product(q.eta, q.trials, 0, 0);
    } else {
      FromCost(q, done, Range(q.trials), 0);
    }
  }
}
