/**
 One stream's grouping, the `Outcome` of `eval/synth/evaluate.py`: what the replay returns of a stream, and
 its restriction to some of the activations.
 */
module Outcomes {
  import opened Wrappers
  import opened Replay
  import opened Partition
  import opened Correlation
  import opened Returns

  /** Per activation its truth and its final situation; `concurrent` names for an incident the one it runs
      alongside. An empty `clear` stands for no unrecognised clear. */
  datatype Outcome = Outcome(name: string, truth: seq<string>, family: seq<string>, pred: seq<int>, ts: seq<real>,
                             compared: seq<Compared>, concurrent: map<string, string>, joins: nat, clear: seq<bool>)

  /** What the strict zip and the indexing demand. */
  predicate WellFormed(o: Outcome) {
    && |o.family| == |o.pred| == |o.truth| && (o.clear == [] || |o.clear| == |o.truth|)
    && forall c :: c in o.compared ==> c.a < |o.truth| && c.b < |o.truth|
  }

  predicate Skipped(o: Outcome, i: nat) {
    i < |o.clear| && o.clear[i]
  }

  /** Every compared pair was judged by incident. */
  ghost predicate Fair(o: Outcome)
    requires WellFormed(o)
  {
    forall c :: c in o.compared ==> (c.same <==> o.truth[c.a] == o.truth[c.b])
  }

  // ---------- what the replay returns ----------

  function Truths(acts: seq<Activation>): seq<string> {
    seq(|acts|, i requires 0 <= i < |acts| => acts[i].incident)
  }

  function Families(acts: seq<Activation>): seq<string> {
    seq(|acts|, i requires 0 <= i < |acts| => acts[i].family)
  }

  function Times(acts: seq<Activation>): seq<real> {
    seq(|acts|, i requires 0 <= i < |acts| => acts[i].ts)
  }

  function Clears(acts: seq<Activation>): seq<bool> {
    seq(|acts|, i requires 0 <= i < |acts| => acts[i].clear)
  }

  /** The outcome of a stream that the replay left in this state. */
  function OutcomeOf(name: string, concurrent: map<string, string>, s: State): Outcome {
    Outcome(name, Truths(s.acts), Families(s.acts), Pred(s), Times(s.acts), s.compared, concurrent, s.joins,
            Clears(s.acts))
  }

  lemma KeptScores(name: string, concurrent: map<string, string>, s: State)
    requires Inv(s)
    ensures var o := OutcomeOf(name, concurrent, s); WellFormed(o) && |o.ts| == |o.truth| && Fair(o)
  {
    var o := OutcomeOf(name, concurrent, s);
    hide Inverse, Rooted, Followed, Burning;
    forall c | c in o.compared
      ensures c.a < |o.truth| && c.b < |o.truth| && (c.same <==> o.truth[c.a] == o.truth[c.b])
    {
      assert c in s.compared;
    }
  }

  /** Whatever the stream and the decider, what the replay returns of it is fit to be scored, and every pair
      it compared is judged by incident. */
  lemma ReplayedScores(cfg: Config, ops: seq<Op>, name: string, concurrent: map<string, string>)
    ensures var o := OutcomeOf(name, concurrent, Replayed(cfg, ops).s);
            WellFormed(o) && |o.ts| == |o.truth| && Fair(o)
  {
    hide Inv, Replayed;
    ReplayedKeeps(cfg, ops);
    KeptScores(name, concurrent, Replayed(cfg, ops).s);
  }

  /** What is returned of a stream, activation by activation, told from the stream: its incident, family, time
      and whether it is an unrecognised clear, and the pairs compared. */
  lemma OutcomeTells(cfg: Config, ops: seq<Op>, name: string, concurrent: map<string, string>)
    ensures var o, acts := OutcomeOf(name, concurrent, Replayed(cfg, ops).s), Activations(ops);
            && o.name == name && o.concurrent == concurrent && o.compared == Paired(acts)
            && |o.truth| == |o.family| == |o.pred| == |o.ts| == |o.clear| == |acts|
            && forall i :: 0 <= i < |acts| ==>
                 && o.truth[i] == acts[i].incident && o.family[i] == acts[i].family
                 && o.ts[i] == acts[i].ts && o.clear[i] == acts[i].clear
  {
    hide Replayed, Run, Paired, Activations;
    var es := EventsOf(cfg, ops);
    ReplayedIsRun(cfg, ops);
    RunActivations(es, cfg.hold);
    RunRecords(es, cfg.hold);
  }

  // ---------- the pairs compared ----------

  /** The latest of the first `n` activations that an alarm had. */
  ghost predicate LatestBefore(acts: seq<Activation>, n: nat, alarm: int, j: nat) {
    j < n <= |acts| && acts[j].alarm == alarm && forall k :: j < k < n ==> acts[k].alarm != alarm
  }

  lemma {:induction false} LastOfTells(acts: seq<Activation>, n: nat, alarm: int)
    requires n <= |acts|
    ensures LastOf(acts[..n], alarm) == None ==> forall j: nat :: j < n ==> acts[j].alarm != alarm
    ensures LastOf(acts[..n], alarm) != None ==> LatestBefore(acts, n, alarm, LastOf(acts[..n], alarm).value)
  {
    if n > 0 {
      assert acts[..n][..n - 1] == acts[..n - 1];
      if acts[n - 1].alarm != alarm {
        LastOfTells(acts, n - 1, alarm);
      }
    }
  }

  /** Which of the candidates have had an activation. */
  function Known(acts: seq<Activation>, candidates: seq<int>): (at: seq<nat>)
    ensures forall c: nat :: c in at <==> c < |candidates| && LastOf(acts, candidates[c]) != None
    ensures forall k, l :: 0 <= k < l < |at| ==> at[k] < at[l]
  {
    if candidates == [] then []
    else
      var n := |candidates| - 1;
      var before := Known(acts, candidates[..n]);
      assert forall k :: 0 <= k < |before| ==> before[k] in before;
      if LastOf(acts, candidates[n]) != None then before + [n] else before
  }

  /** The comparison of the `n`-th activation with an alarm's latest one before it. */
  ghost predicate Matches(acts: seq<Activation>, n: nat, c: nat, d: Compared) {
    && n < |acts| && c < |acts[n].candidates| && d.a == n && LatestBefore(acts, n, acts[n].candidates[c], d.b)
    && (d.same <==> acts[d.b].incident == acts[n].incident)
  }

  lemma {:induction false} AgainstTells(acts: seq<Activation>, n: nat, m: nat)
    requires n < |acts| && m <= |acts[n].candidates|
    ensures var at, pairs := Known(acts[..n], acts[n].candidates[..m]),
                             Against(acts[..n], acts[n].incident, acts[n].candidates[..m]);
            |pairs| == |at| && forall k :: 0 <= k < |at| ==> Matches(acts, n, at[k], pairs[k])
  {
    if m > 0 {
      var candidates := acts[n].candidates;
      assert candidates[..m][..m - 1] == candidates[..m - 1];
      AgainstTells(acts, n, m - 1);
      LastOfTells(acts, n, candidates[m - 1]);
    }
  }

  /** The activations, each with the places among its candidates that yield a comparison. */
  function Marks(acts: seq<Activation>, n: nat): (marks: seq<(nat, nat)>)
    requires n <= |acts|
    ensures forall k :: 0 <= k < |marks| ==> marks[k].0 < n
  {
    if n == 0 then [] else Marks(acts, n - 1) + MarksOf(acts, n - 1)
  }

  function MarksOf(acts: seq<Activation>, n: nat): (marks: seq<(nat, nat)>)
    requires n < |acts|
    ensures forall k :: 0 <= k < |marks| ==> marks[k].0 == n
    ensures forall k, l :: 0 <= k < l < |marks| ==> marks[k].1 < marks[l].1
  {
    var at := Known(acts[..n], acts[n].candidates);
    seq(|at|, k requires 0 <= k < |at| => (n, at[k]))
  }

  lemma MarksOfTell(acts: seq<Activation>, n: nat, c: nat)
    requires n < |acts|
    ensures (n, c) in MarksOf(acts, n) <==>
            c < |acts[n].candidates| && LastOf(acts[..n], acts[n].candidates[c]) != None
  {
    var at, marks := Known(acts[..n], acts[n].candidates), MarksOf(acts, n);
    if c in at {
      var k :| 0 <= k < |at| && at[k] == c;
      assert marks[k] == (n, c);
    }
    if (n, c) in marks {
      var k :| 0 <= k < |marks| && marks[k] == (n, c);
      assert at[k] == c;
    }
  }

  predicate Earlier(p: (nat, nat), q: (nat, nat)) {
    p.0 < q.0 || (p.0 == q.0 && p.1 < q.1)
  }

  lemma {:induction false} MarksTell(acts: seq<Activation>, n: nat)
    requires n <= |acts|
    ensures forall k, l :: 0 <= k < l < |Marks(acts, n)| ==> Earlier(Marks(acts, n)[k], Marks(acts, n)[l])
    ensures forall i: nat, c: nat :: (i, c) in Marks(acts, n) <==>
              i < n && c < |acts[i].candidates| && LastOf(acts[..i], acts[i].candidates[c]) != None
  {
    hide MarksOf, LastOf;
    if n > 0 {
      var m := n - 1;
      MarksTell(acts, m);
      forall c: nat
        ensures (m, c) in MarksOf(acts, m) <==>
                c < |acts[m].candidates| && LastOf(acts[..m], acts[m].candidates[c]) != None
      {
        MarksOfTell(acts, m, c);
      }
    }
  }

  lemma {:induction false} MarksMatch(acts: seq<Activation>, n: nat)
    requires n <= |acts|
    ensures var marks, pairs := Marks(acts, n), Paired(acts[..n]);
            |pairs| == |marks| && forall k :: 0 <= k < |marks| ==> Matches(acts, marks[k].0, marks[k].1, pairs[k])
  {
    hide Matches, Known, Against;
    if n > 0 {
      assert acts[..n][..n - 1] == acts[..n - 1];
      MarksMatch(acts, n - 1);
      assert acts[n - 1].candidates[..|acts[n - 1].candidates|] == acts[n - 1].candidates;
      AgainstTells(acts, n - 1, |acts[n - 1].candidates|);
    }
  }

  /** The pairs compared, told from the activations: in order, one for each candidate of each that had an earlier
      activation, the activation first and the candidate's latest earlier one second, and judged by incident. */
  lemma PairsTell(acts: seq<Activation>) returns (marks: seq<(nat, nat)>)
    ensures forall k, l :: 0 <= k < l < |marks| ==>
              marks[k].0 < marks[l].0 || (marks[k].0 == marks[l].0 && marks[k].1 < marks[l].1)
    ensures forall i: nat, c: nat :: (i, c) in marks <==>
              && i < |acts| && c < |acts[i].candidates|
              && exists j: nat :: j < i && acts[j].alarm == acts[i].candidates[c]
    ensures |Paired(acts)| == |marks|
    ensures forall k :: 0 <= k < |marks| ==>
              var d, i, c := Paired(acts)[k], marks[k].0, marks[k].1;
              && i < |acts| && c < |acts[i].candidates| && d.a == i && d.b < i
              && acts[d.b].alarm == acts[i].candidates[c]
              && (forall j :: d.b < j < i ==> acts[j].alarm != acts[i].candidates[c])
              && (d.same <==> acts[d.b].incident == acts[i].incident)
  {
    hide LastOf, Paired, Marks;
    marks := Marks(acts, |acts|);
    assert acts[..|acts|] == acts;
    MarksTell(acts, |acts|);
    MarksMatch(acts, |acts|);
    forall i: nat, c: nat | i < |acts| && c < |acts[i].candidates|
      ensures LastOf(acts[..i], acts[i].candidates[c]) != None <==>
              exists j: nat :: j < i && acts[j].alarm == acts[i].candidates[c]
    {
      LastOfTells(acts, i, acts[i].candidates[c]);
    }
    forall k | 0 <= k < |marks|
      ensures Matches(acts, marks[k].0, marks[k].1, Paired(acts)[k])
    {
    }
  }

  // ---------- restricting an outcome ----------

  /** `{old: new for new, old in enumerate(keep)}`. */
  function Places(keep: seq<nat>): (places: map<nat, nat>)
    ensures forall k :: k in places <==> k in keep
    ensures forall k :: k in places ==> places[k] < |keep| && keep[places[k]] == k
  {
    if keep == [] then map[]
    else
      var n := |keep| - 1;
      assert forall k :: k in keep <==> k in keep[..n] || k == keep[n];
      Places(keep[..n])[keep[n] := n]
  }

  /** The comparisons with both ends kept, at their new places. */
  function Moved(compared: seq<Compared>, places: map<nat, nat>): seq<Compared> {
    if compared == [] then []
    else
      var before, c := Moved(compared[..|compared| - 1], places), compared[|compared| - 1];
      if c.a in places && c.b in places then before + [Compared(places[c.a], places[c.b], c.same)] else before
  }

  function Picked<X>(xs: seq<X>, keep: seq<nat>): seq<X>
    requires forall k :: k in keep ==> k < |xs|
  {
    seq(|keep|, i requires 0 <= i < |keep| => assert keep[i] in keep; xs[keep[i]])
  }

  /** `restrict`. */
  function Restrict(o: Outcome, keep: seq<nat>): Outcome
    requires WellFormed(o) && |o.ts| == |o.truth| && forall k :: k in keep ==> k < |o.truth|
  {
    Outcome(o.name, Picked(o.truth, keep), Picked(o.family, keep), Picked(o.pred, keep), Picked(o.ts, keep),
            Moved(o.compared, Places(keep)), o.concurrent, 0, if o.clear != [] then Picked(o.clear, keep) else [])
  }

  lemma {:induction false} MovedMeets(compared: seq<Compared>, places: map<nat, nat>, d: Compared)
    ensures d in Moved(compared, places) <==>
            exists c :: c in compared && c.a in places && c.b in places
                        && d == Compared(places[c.a], places[c.b], c.same)
  {
    if compared != [] {
      var rest, last := compared[..|compared| - 1], compared[|compared| - 1];
      assert compared == rest + [last];
      MovedMeets(rest, places, d);
    }
  }

  lemma RestrictPairs(o: Outcome, keep: seq<nat>)
    requires WellFormed(o) && |o.ts| == |o.truth| && forall k :: k in keep ==> k < |o.truth|
    ensures forall d :: d in Restrict(o, keep).compared ==>
              d.a < |keep| && d.b < |keep| && Compared(keep[d.a], keep[d.b], d.same) in o.compared
    ensures forall c :: c in o.compared && c.a in keep && c.b in keep ==>
              exists d :: d in Restrict(o, keep).compared && d.same == c.same && keep[d.a] == c.a && keep[d.b] == c.b
  {
    hide WellFormed;
    var r, places := Restrict(o, keep), Places(keep);
    forall d | d in r.compared
      ensures d.a < |keep| && d.b < |keep| && Compared(keep[d.a], keep[d.b], d.same) in o.compared
    {
      MovedMeets(o.compared, places, d);
      var c :| c in o.compared && c.a in places && c.b in places && d == Compared(places[c.a], places[c.b], c.same);
    }
    forall c | c in o.compared && c.a in keep && c.b in keep
      ensures exists d :: d in r.compared && d.same == c.same && keep[d.a] == c.a && keep[d.b] == c.b
    {
      var d := Compared(places[c.a], places[c.b], c.same);
      MovedMeets(o.compared, places, d);
      assert d in r.compared;
    }
  }

  lemma RestrictRecords(o: Outcome, keep: seq<nat>, i: nat)
    requires WellFormed(o) && |o.ts| == |o.truth| && (forall k :: k in keep ==> k < |o.truth|) && i < |keep|
    ensures var r := Restrict(o, keep);
            && keep[i] in keep && i < |r.truth| && i < |r.pred| && i < |r.family|
            && r.truth[i] == o.truth[keep[i]] && r.family[i] == o.family[keep[i]]
            && r.pred[i] == o.pred[keep[i]] && (Skipped(r, i) <==> Skipped(o, keep[i]))
  {
    hide Moved, Places;
    assert keep[i] in keep;
  }

  lemma RestrictWellFormed(o: Outcome, keep: seq<nat>)
    requires WellFormed(o) && |o.ts| == |o.truth| && forall k :: k in keep ==> k < |o.truth|
    ensures WellFormed(Restrict(o, keep)) && |Restrict(o, keep).ts| == |Restrict(o, keep).truth| == |keep|
  {
    hide Moved, Places;
    RestrictPairs(o, keep);
  }

  /** Restricting an outcome, to any activations in any order, leaves one fit to be scored: each activation
      keeps what was recorded of it, and its pairs are exactly those compared before that have both ends
      kept, so they are judged as fairly. */
  lemma RestrictKeeps(o: Outcome, keep: seq<nat>)
    requires WellFormed(o) && |o.ts| == |o.truth| && forall k :: k in keep ==> k < |o.truth|
    ensures var r := Restrict(o, keep);
            WellFormed(r) && |r.ts| == |r.truth| == |keep| && (Fair(o) ==> Fair(r))
    ensures var r := Restrict(o, keep);
            forall i: nat :: i < |keep| ==>
              && keep[i] in keep && r.truth[i] == o.truth[keep[i]] && r.family[i] == o.family[keep[i]]
              && r.pred[i] == o.pred[keep[i]] && (Skipped(r, i) <==> Skipped(o, keep[i]))
    ensures forall d :: d in Restrict(o, keep).compared ==>
              d.a < |keep| && d.b < |keep| && Compared(keep[d.a], keep[d.b], d.same) in o.compared
    ensures forall c :: c in o.compared && c.a in keep && c.b in keep ==>
              exists d :: d in Restrict(o, keep).compared && d.same == c.same && keep[d.a] == c.a && keep[d.b] == c.b
  {
    hide Restrict, Skipped;
    var r := Restrict(o, keep);
    RestrictWellFormed(o, keep);
    RestrictPairs(o, keep);
    forall i: nat | i < |keep|
      ensures && keep[i] in keep && r.truth[i] == o.truth[keep[i]] && r.family[i] == o.family[keep[i]]
              && r.pred[i] == o.pred[keep[i]] && (Skipped(r, i) <==> Skipped(o, keep[i]))
    {
      RestrictRecords(o, keep, i);
    }
    if Fair(o) {
      forall d | d in r.compared
        ensures d.same <==> r.truth[d.a] == r.truth[d.b]
      {
        RestrictFair(o, keep, d);
      }
    }
  }

  lemma RestrictFair(o: Outcome, keep: seq<nat>, d: Compared)
    requires WellFormed(o) && |o.ts| == |o.truth| && (forall k :: k in keep ==> k < |o.truth|) && Fair(o)
    requires d.a < |keep| && d.b < |keep| && Compared(keep[d.a], keep[d.b], d.same) in o.compared
    ensures var r := Restrict(o, keep);
            d.a < |r.truth| && d.b < |r.truth| && (d.same <==> r.truth[d.a] == r.truth[d.b])
  {
    hide Restrict, Skipped;
    RestrictRecords(o, keep, d.a);
    RestrictRecords(o, keep, d.b);
  }

  /** Which of the comparisons have both ends kept. */
  function KeptAt(compared: seq<Compared>, keep: seq<nat>): (at: seq<nat>)
    ensures forall i: nat :: i in at <==> i < |compared| && compared[i].a in keep && compared[i].b in keep
    ensures forall i, j :: 0 <= i < j < |at| ==> at[i] < at[j]
  {
    if compared == [] then []
    else
      var n := |compared| - 1;
      var before := KeptAt(compared[..n], keep);
      assert forall i :: 0 <= i < |before| ==> before[i] in before;
      if compared[n].a in keep && compared[n].b in keep then before + [n] else before
  }

  /** `at` is the last place of `k` in the list. */
  ghost predicate LastPlace(keep: seq<nat>, k: nat, at: nat) {
    at < |keep| && keep[at] == k && forall j :: at < j < |keep| ==> keep[j] != k
  }

  lemma {:induction false} PlacesLast(keep: seq<nat>, k: nat)
    requires k in keep
    ensures k in Places(keep) && LastPlace(keep, k, Places(keep)[k])
  {
    var n := |keep| - 1;
    assert keep == keep[..n] + [keep[n]];
    if keep[n] != k {
      PlacesLast(keep[..n], k);
      assert forall j :: 0 <= j < n ==> keep[..n][j] == keep[j];
    }
  }

  /** A comparison and what becomes of it. */
  ghost predicate Carried(keep: seq<nat>, c: Compared, d: Compared) {
    LastPlace(keep, c.a, d.a) && LastPlace(keep, c.b, d.b) && d.same == c.same
  }

  lemma CarriedOver(keep: seq<nat>, c: Compared)
    requires c.a in keep && c.b in keep
    ensures c.a in Places(keep) && c.b in Places(keep)
    ensures Carried(keep, c, Compared(Places(keep)[c.a], Places(keep)[c.b], c.same))
  {
    hide LastPlace;
    PlacesLast(keep, c.a);
    PlacesLast(keep, c.b);
  }

  lemma {:induction false} MovedTells(compared: seq<Compared>, keep: seq<nat>)
    ensures var moved, at := Moved(compared, Places(keep)), KeptAt(compared, keep);
            && |moved| == |at|
            && forall i :: 0 <= i < |at| ==>
                 at[i] in at && at[i] < |compared| && Carried(keep, compared[at[i]], moved[i])
  {
    hide Carried;
    if compared != [] {
      var n := |compared| - 1;
      var rest, last := compared[..n], compared[n];
      MovedTells(rest, keep);
      assert forall i: nat :: i < n ==> rest[i] == compared[i];
      if last.a in keep && last.b in keep {
        CarriedOver(keep, last);
      }
    }
  }

  /** What a restriction holds, told from the outcome and the list: the name, the incidents that run alongside
      and no joins; each kept activation with all that was recorded of it; and, in the order compared, one pair
      for every pair with both ends kept, its ends at the last places that list them. */
  lemma RestrictTells(o: Outcome, keep: seq<nat>) returns (at: seq<nat>)
    requires WellFormed(o) && |o.ts| == |o.truth| && forall k :: k in keep ==> k < |o.truth|
    ensures var r := Restrict(o, keep);
            && r.name == o.name && r.concurrent == o.concurrent && r.joins == 0
            && |r.truth| == |r.family| == |r.pred| == |r.ts| == |keep|
            && (o.clear == [] ==> r.clear == []) && (o.clear != [] ==> |r.clear| == |keep|)
            && forall i :: 0 <= i < |keep| ==>
                 && keep[i] in keep && r.truth[i] == o.truth[keep[i]] && r.family[i] == o.family[keep[i]]
                 && r.pred[i] == o.pred[keep[i]] && r.ts[i] == o.ts[keep[i]]
                 && (o.clear != [] ==> r.clear[i] == o.clear[keep[i]])
    ensures forall i: nat :: i in at <==> i < |o.compared| && o.compared[i].a in keep && o.compared[i].b in keep
    ensures forall i, j :: 0 <= i < j < |at| ==> at[i] < at[j]
    ensures var r := Restrict(o, keep);
            && |r.compared| == |at|
            && forall i :: 0 <= i < |at| ==>
                 && at[i] in at
                 && var c, d := o.compared[at[i]], r.compared[i];
                    && d.same == c.same
                    && d.a < |keep| && keep[d.a] == c.a && (forall j :: d.a < j < |keep| ==> keep[j] != c.a)
                    && d.b < |keep| && keep[d.b] == c.b && (forall j :: d.b < j < |keep| ==> keep[j] != c.b)
  {
    hide Moved, Places, KeptAt;
    at := KeptAt(o.compared, keep);
    MovedTells(o.compared, keep);
  }

  /** The activations no later than `horizon` after the first. */
  function Early(ts: seq<real>, horizon: real, n: nat): (keep: seq<nat>)
    requires n <= |ts|
    ensures forall k: nat :: k in keep <==> k < n && ts[k] - ts[0] <= horizon
    ensures forall i, j :: 0 <= i < j < |keep| ==> keep[i] < keep[j]
  {
    if n == 0 then []
    else
      var before := Early(ts, horizon, n - 1);
      assert forall i :: 0 <= i < |before| ==> before[i] in before;
      if ts[n - 1] - ts[0] <= horizon then before + [n - 1] else before
  }

  /** `first_hour`. */
  function FirstHour(o: Outcome, horizon: real): Outcome
    requires WellFormed(o) && |o.ts| == |o.truth|
  {
    if o.ts == [] then o else Restrict(o, Early(o.ts, horizon, |o.ts|))
  }

  /** The first hour is fit to be scored and judged as fairly, and it is exactly the activations no later
      than the horizon after the first, in order. */
  lemma FirstHourKeeps(o: Outcome, horizon: real) returns (keep: seq<nat>)
    requires WellFormed(o) && |o.ts| == |o.truth|
    ensures WellFormed(FirstHour(o, horizon)) && (Fair(o) ==> Fair(FirstHour(o, horizon)))
    ensures forall k: nat :: k in keep <==> k < |o.ts| && o.ts[k] - o.ts[0] <= horizon
    ensures forall i, j :: 0 <= i < j < |keep| ==> keep[i] < keep[j]
    ensures o.ts != [] ==> FirstHour(o, horizon) == Restrict(o, keep)
    ensures o.ts == [] ==> FirstHour(o, horizon) == o
  {
    hide Restrict, WellFormed, Fair;
    keep := if o.ts == [] then [] else Early(o.ts, horizon, |o.ts|);
    if o.ts != [] {
      RestrictKeeps(o, keep);
    }
  }
}
