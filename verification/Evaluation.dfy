/**
 From recorded streams to a report, as `eval/synth/report.py` and `eval/synth/train.py` put `group` and
 `situation_metrics` together: every hypothesis of the scores is met by what the replay returns, and what
 a perfect score says of the links the decider accepted.
 */
module Evaluation {
  import opened Wrappers
  import opened Replay
  import opened Partition
  import opened Correlation
  import opened Components
  import opened Pairs
  import opened Metrics
  import opened Outcomes
  import opened StreamRates
  import opened Scoring
  import opened ReplayObject

  datatype StreamLog = StreamLog(name: string, ops: seq<Op>, concurrent: map<string, string>)

  ghost function OutcomeIn(cfg: Config, log: StreamLog): Outcome {
    OutcomeOf(log.name, log.concurrent, Replayed(cfg, log.ops).s)
  }

  ghost function OutcomesOf(cfg: Config, logs: seq<StreamLog>): seq<Outcome> {
    seq(|logs|, k requires 0 <= k < |logs| => OutcomeIn(cfg, logs[k]))
  }

  lemma OutcomesFit(cfg: Config, logs: seq<StreamLog>)
    ensures forall o :: o in OutcomesOf(cfg, logs) ==> WellFormed(o) && Fair(o)
  {
    forall o | o in OutcomesOf(cfg, logs)
      ensures WellFormed(o) && Fair(o)
    {
      var k :| 0 <= k < |logs| && o == OutcomeIn(cfg, logs[k]);
      ReplayedScores(cfg, logs[k].ops, logs[k].name, logs[k].concurrent);
    }
  }

  /** The report is about those streams under that decider. */
  ghost predicate Evaluated(r: Report, cfg: Config, logs: seq<StreamLog>, family: Option<string>) {
    var outcomes := OutcomesOf(cfg, logs);
    && (forall o :: o in outcomes ==> WellFormed(o))
    && Reports(r, Pool(outcomes), Of(Pool(outcomes), family), Pooled(outcomes, family), family)
  }

  /** `situation_metrics([group(log, decider) for log in logs], family)`. */
  method Evaluate(cfg: Config, logs: seq<StreamLog>, family: Option<string>) returns (r: Report)
    ensures Evaluated(r, cfg, logs, family)
  {
    hide WellFormed, Fair, OutcomeOf, Reports, Replayed;
    OutcomesFit(cfg, logs);
    var outcomes: seq<Outcome> := [];
    for k := 0 to |logs|
      invariant outcomes == OutcomesOf(cfg, logs)[..k]
    {
      var o := Group(logs[k].name, logs[k].concurrent, cfg, logs[k].ops);
      outcomes := outcomes + [o];
    }
    assert OutcomesOf(cfg, logs)[..|logs|] == OutcomesOf(cfg, logs);
    r := SituationMetrics(outcomes, family);
  }

  lemma NoRepairRespects(r: Report, outcomes: seq<Outcome>)
    requires forall o :: o in outcomes ==> WellFormed(o) && Fair(o)
    requires Reports(r, Pool(outcomes), Of(Pool(outcomes), None), Pooled(outcomes, None), None) && r.repair == 0.0
    ensures r.respectedRate == 1.0
  {
    hide WellFormed, Fair, MergesNeeded, MovesNeeded, Together, Pool, Of, Pooled;
    hide Contaminated, Split, PiecesOf, IncidentsIn, Dice, Rand, Situations, Incidents;
    ReportBalances(r, outcomes);
    NoWorkNoDifference(Pool(outcomes));
    NoWorkRespectsAll(outcomes, None);
  }

  /** Where an evaluation leaves no repair work, every asserted negative was respected. */
  lemma NoRepairRespectsAll(r: Report, cfg: Config, logs: seq<StreamLog>)
    requires Evaluated(r, cfg, logs, None) && r.repair == 0.0
    ensures r.respectedRate == 1.0
  {
    hide WellFormed, Fair, OutcomesOf, Reports, Pool, Of, Pooled;
    OutcomesFit(cfg, logs);
    NoRepairRespects(r, OutcomesOf(cfg, logs));
  }

  // ---------- what a perfect score says ----------

  lemma {:induction false} ItemsMeet(o: Outcome, n: nat, x: Item)
    requires WellFormed(o) && n <= |o.truth|
    ensures x in ItemsTo(o, n) <==> exists i: nat :: i < n && !Skipped(o, i) && x == ItemAt(o, i)
  {
    if n > 0 {
      ItemsMeet(o, n - 1, x);
      if !Skipped(o, n - 1) && x == ItemAt(o, n - 1) {
        assert x in ItemsTo(o, n);
      }
    }
  }

  /** One of the scored activations of the streams. */
  ghost predicate ScoredIn(x: Item, o: Outcome)
    requires WellFormed(o)
  {
    exists i: nat :: i < |o.truth| && !Skipped(o, i) && x == ItemAt(o, i)
  }

  lemma {:induction false} PoolMeets(outcomes: seq<Outcome>, x: Item)
    requires forall o :: o in outcomes ==> WellFormed(o)
    ensures x in Pool(outcomes) <==> exists o :: o in outcomes && ScoredIn(x, o)
  {
    if outcomes != [] {
      var rest, last := outcomes[..|outcomes| - 1], outcomes[|outcomes| - 1];
      assert outcomes == rest + [last];
      assert last in outcomes;
      PoolMeets(rest, x);
      ItemsMeet(last, |last.truth|, x);
    }
  }

  lemma AgreeTogether(items: seq<Item>)
    ensures Agree(items) <==> Together(Situations(items)) == Together(Incidents(items))
  {
    hide Together;
    if Together(Situations(items)) == Together(Incidents(items)) {
      TogetherAgree(items);
    }
    if Agree(items) {
      forall i, j | 0 <= i < |items| && 0 <= j < |items|
        ensures Situations(items)[i] == Situations(items)[j] <==> Incidents(items)[i] == Incidents(items)[j]
      {
        assert items[i] in items && items[j] in items;
      }
      SamePairs(Situations(items), Incidents(items));
    }
  }

  /** Prediction and truth put the same scored activations of the stream together. */
  ghost predicate Sorts(o: Outcome)
    requires WellFormed(o)
  {
    forall i: nat, j: nat :: i < |o.truth| && j < |o.truth| && !Skipped(o, i) && !Skipped(o, j) ==>
      (o.pred[i] == o.pred[j] <==> o.truth[i] == o.truth[j])
  }

  ghost predicate NamedApart(outcomes: seq<Outcome>) {
    forall o, p :: o in outcomes && p in outcomes && o.name == p.name ==> o == p
  }

  lemma AgreeEach(outcomes: seq<Outcome>)
    requires (forall o :: o in outcomes ==> WellFormed(o)) && NamedApart(outcomes)
    ensures Agree(Pool(outcomes)) <==> forall o :: o in outcomes ==> Sorts(o)
  {
    hide WellFormed, Skipped;
    if Agree(Pool(outcomes)) {
      forall o | o in outcomes
        ensures Sorts(o)
      {
        AgreeSorts(outcomes, o);
      }
    }
    if forall o :: o in outcomes ==> Sorts(o) {
      forall x, y | x in Pool(outcomes) && y in Pool(outcomes)
        ensures SituationOf(x) == SituationOf(y) <==> IncidentOf(x) == IncidentOf(y)
      {
        PoolMeets(outcomes, x);
        PoolMeets(outcomes, y);
        SortsAgree(outcomes, x, y);
      }
    }
  }

  lemma AgreeSorts(outcomes: seq<Outcome>, o: Outcome)
    requires (forall p :: p in outcomes ==> WellFormed(p)) && o in outcomes && Agree(Pool(outcomes))
    ensures Sorts(o)
  {
    forall i: nat, j: nat | i < |o.truth| && j < |o.truth| && !Skipped(o, i) && !Skipped(o, j)
      ensures o.pred[i] == o.pred[j] <==> o.truth[i] == o.truth[j]
    {
      var x, y := ItemAt(o, i), ItemAt(o, j);
      PoolMeets(outcomes, x);
      PoolMeets(outcomes, y);
      assert ScoredIn(x, o) && ScoredIn(y, o);
      assert SituationOf(x) == SituationOf(y) <==> IncidentOf(x) == IncidentOf(y);
    }
  }

  lemma SortsAgree(outcomes: seq<Outcome>, x: Item, y: Item)
    requires (forall o :: o in outcomes ==> WellFormed(o) && Sorts(o)) && NamedApart(outcomes)
    requires (exists o :: o in outcomes && ScoredIn(x, o)) && (exists o :: o in outcomes && ScoredIn(y, o))
    ensures SituationOf(x) == SituationOf(y) <==> IncidentOf(x) == IncidentOf(y)
  {
    var o :| o in outcomes && ScoredIn(x, o);
    var p :| p in outcomes && ScoredIn(y, p);
    assert x.name == o.name && y.name == p.name;
  }

  /** No labelling that follows every accepted link tells the two activations apart. */
  ghost predicate Connected(cfg: Config, ops: seq<Op>, i: nat, j: nat) {
    var y := Replayed(cfg, ops);
    forall f: seq<int> | |f| == |y.s.actSid| && Follows(f, y.links) && i < |f| && j < |f| :: f[i] == f[j]
  }

  /** The accepted links connect two activations - of those that are no unrecognised clear - exactly when
      they are of one incident. */
  ghost predicate LinksAreTrue(cfg: Config, ops: seq<Op>) {
    var acts := Activations(ops);
    forall i: nat, j: nat :: i < |acts| && j < |acts| && !acts[i].clear && !acts[j].clear ==>
      (Connected(cfg, ops, i, j) <==> acts[i].incident == acts[j].incident)
  }

  lemma SortsExactlyWhenTrue(cfg: Config, log: StreamLog)
    requires cfg.mode.Components?
    ensures WellFormed(OutcomeIn(cfg, log))
    ensures Sorts(OutcomeIn(cfg, log)) <==> LinksAreTrue(cfg, log.ops)
  {
    hide Replayed, Inv, Activations, Paired;
    ReplayedScores(cfg, log.ops, log.name, log.concurrent);
    ReplayedKeeps(cfg, log.ops);
    OutcomeTells(cfg, log.ops, log.name, log.concurrent);
    var o, acts := OutcomeIn(cfg, log), Activations(log.ops);
    forall i: nat, j: nat | i < |acts| && j < |acts|
      ensures i < |o.truth| && j < |o.truth|
      ensures (Skipped(o, i) <==> acts[i].clear) && (Skipped(o, j) <==> acts[j].clear)
      ensures o.pred[i] == o.pred[j] <==> Connected(cfg, log.ops, i, j)
      ensures o.truth[i] == acts[i].incident && o.truth[j] == acts[j].incident
    {
      SituationsAreComponents(cfg, log.ops, i, j);
    }
  }

  lemma PerfectExactlyWhenSorted(r: Report, outcomes: seq<Outcome>)
    requires (forall o :: o in outcomes ==> WellFormed(o)) && NamedApart(outcomes)
    requires Reports(r, Pool(outcomes), Of(Pool(outcomes), None), Pooled(outcomes, None), None)
    ensures r.pairwiseF1 == 1.0 <==> forall o :: o in outcomes ==> Sorts(o)
    ensures r.pairwiseF1 == 1.0 <==> r.ari == 1.0
    ensures r.pairwiseF1 == 1.0 <==> r.repair == 0.0
  {
    hide WellFormed, Together, Agree, Sorts, Reports, NamedApart, Pool, Of, Pooled;
    ReportBalances(r, outcomes);
    AgreeTogether(Pool(outcomes));
    AgreeEach(outcomes);
  }

  lemma SortedExactlyWhenTrue(cfg: Config, logs: seq<StreamLog>)
    requires cfg.mode.Components?
    ensures forall o :: o in OutcomesOf(cfg, logs) ==> WellFormed(o)
    ensures (forall o :: o in OutcomesOf(cfg, logs) ==> Sorts(o)) <==>
            forall log :: log in logs ==> LinksAreTrue(cfg, log.ops)
  {
    hide WellFormed, OutcomeIn, Sorts, LinksAreTrue;
    var outcomes := OutcomesOf(cfg, logs);
    forall log | log in logs
      ensures OutcomeIn(cfg, log) in outcomes
      ensures WellFormed(OutcomeIn(cfg, log)) && (Sorts(OutcomeIn(cfg, log)) <==> LinksAreTrue(cfg, log.ops))
    {
      SortsExactlyWhenTrue(cfg, log);
      var k :| 0 <= k < |logs| && logs[k] == log;
      assert outcomes[k] == OutcomeIn(cfg, log);
    }
    forall o | o in outcomes
      ensures exists log :: log in logs && o == OutcomeIn(cfg, log)
    {
      var k :| 0 <= k < |logs| && outcomes[k] == o;
      assert logs[k] in logs;
    }
  }

  /** In components mode the pairwise F1 over any streams - named apart - is 1 exactly when in each of them
      the accepted links connect two activations if and only if they are of one incident. The adjusted Rand
      index is 1, and no repair work is left, in just the same case. */
  lemma PerfectExactlyWhenTrue(r: Report, cfg: Config, logs: seq<StreamLog>)
    requires cfg.mode.Components? && Evaluated(r, cfg, logs, None)
    requires forall k, l :: 0 <= k < l < |logs| ==> logs[k].name != logs[l].name
    ensures r.pairwiseF1 == 1.0 <==> forall log :: log in logs ==> LinksAreTrue(cfg, log.ops)
    ensures r.pairwiseF1 == 1.0 <==> r.ari == 1.0
    ensures r.pairwiseF1 == 1.0 <==> r.repair == 0.0
  {
    hide WellFormed, OutcomesOf, Reports, NamedApart, Sorts, LinksAreTrue, Pool, Of, Pooled;
    Apart(cfg, logs);
    SortedExactlyWhenTrue(cfg, logs);
    PerfectExactlyWhenSorted(r, OutcomesOf(cfg, logs));
  }

  lemma Apart(cfg: Config, logs: seq<StreamLog>)
    requires forall k, l :: 0 <= k < l < |logs| ==> logs[k].name != logs[l].name
    ensures NamedApart(OutcomesOf(cfg, logs))
  {
    hide Replayed;
  }
}
