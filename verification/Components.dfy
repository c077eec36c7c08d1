/**
 Components mode: "a situation is a connected component of the resulting link graph", proved for
 every stream, every decider and every closing that happens on the way.
 */
module Components {
  import opened Wrappers
  import opened Grouping
  import opened Replay
  import opened Partition
  import opened Correlation

  /** In components mode an activation joins or folds exactly the situations it is linked to. */
  lemma ComponentsPlacement(cfg: Config, s: State, cross: Cross, act: Activation, scored: seq<Scored>, o: int)
    requires cfg.mode.Components?
    ensures var p := PlacementOf(cfg, s, cross, act, scored);
            (p.join == Some(o) || o in p.merge) <==> o in Linked(scored, s.sitOf, Get(s.sitOf, act.alarm))
  {
  }

  /** Each link ends at the latest activation of an alarm in a linked situation, and every linked
      situation has one. */
  lemma LinkedBy(s: State, alarm: int, scored: seq<Scored>, o: int) returns (j: nat)
    requires Inv(s) && o in Linked(scored, s.sitOf, Get(s.sitOf, alarm))
    ensures (|s.actSid|, j) in LinksOf(s, alarm, scored)
    ensures j < |s.actSid| && s.rep[s.actSid[j]] == o
  {
    if alarm in s.sitOf && s.sitOf[alarm] == o {
      j := s.latest[alarm];
    } else {
      var p :| p in scored && p.linked && p.alarm in s.sitOf && s.sitOf[p.alarm] == o;
      j := s.latest[p.alarm];
    }
  }

  lemma LinksEnd(s: State, alarm: int, scored: seq<Scored>, l: (nat, nat))
    requires Inv(s) && l in LinksOf(s, alarm, scored)
    ensures l.0 == |s.actSid| && l.1 < |s.actSid|
    ensures s.rep[s.actSid[l.1]] in Linked(scored, s.sitOf, Get(s.sitOf, alarm))
  {
    if p :| p in scored && p.linked && p.alarm in s.sitOf && p.alarm in s.latest
            && l == (|s.actSid|, s.latest[p.alarm])
    {
      assert s.rep[s.actSid[s.latest[p.alarm]]] == s.sitOf[p.alarm];
    } else {
      assert alarm in s.sitOf;
    }
  }

  /** Every accepted link joins two activations of one situation. */
  ghost predicate Joined(y: System) {
    forall l :: l in y.links ==>
      l.0 < |y.s.actSid| && l.1 < |y.s.actSid| && Pred(y.s)[l.0] == Pred(y.s)[l.1]
  }

  /** Activations once together stay together, and a link puts its two together. */
  lemma OldLinkJoined(cfg: Config, y: System, act: Activation, scored: seq<Scored>, i: nat, j: nat)
    requires Inv(y.s) && i < |y.s.actSid| && j < |y.s.actSid| && Pred(y.s)[i] == Pred(y.s)[j]
    ensures var t := RaiseStep(cfg, y, act, scored).s;
            i < |t.actSid| && j < |t.actSid| && Pred(t)[i] == Pred(t)[j]
  {
    hide Inv, PlaceStep, PlacementOf, Answers, Moves, Pred;
    PlacementAnswers(cfg, y.s, y.cross, act, scored);
    PlaceTogether(y.s, act, PlacementOf(cfg, y.s, y.cross, act, scored), i, j);
  }

  lemma NewLinkJoined(cfg: Config, y: System, act: Activation, scored: seq<Scored>, l: (nat, nat))
    requires cfg.mode.Components? && Inv(y.s) && l in LinksOf(y.s, act.alarm, scored)
    ensures var t := RaiseStep(cfg, y, act, scored).s;
            l.0 < |t.actSid| && l.1 < |t.actSid| && Pred(t)[l.0] == Pred(t)[l.1]
  {
    var s := y.s;
    var p := PlacementOf(cfg, s, y.cross, act, scored);
    PlacementAnswers(cfg, s, y.cross, act, scored);
    PlaceRecords(s, act, p);
    PlaceRoots(s, act, p);
    TargetMeets(s, p, Get(s.sitOf, act.alarm));
    LinksEnd(s, act.alarm, scored, l);
    ComponentsPlacement(cfg, s, y.cross, act, scored, s.rep[s.actSid[l.1]]);
    hide PlaceStep, Place, Answers, Moves, LinksOf, Linked;
  }

  lemma RaiseJoins(cfg: Config, y: System, act: Activation, scored: seq<Scored>)
    requires cfg.mode.Components? && Inv(y.s) && Joined(y)
    ensures Joined(RaiseStep(cfg, y, act, scored))
  {
    var z := RaiseStep(cfg, y, act, scored);
    forall l | l in z.links
      ensures l.0 < |z.s.actSid| && l.1 < |z.s.actSid| && Pred(z.s)[l.0] == Pred(z.s)[l.1]
    {
      if l in y.links {
        OldLinkJoined(cfg, y, act, scored, l.0, l.1);
      } else {
        NewLinkJoined(cfg, y, act, scored, l);
      }
    }
  }

  /** A labelling of the activations that no accepted link separates. */
  ghost predicate Follows(f: seq<int>, links: set<(nat, nat)>) {
    forall l :: l in links ==> l.0 < |f| && l.1 < |f| && f[l.0] == f[l.1]
  }

  /** Activations predicted together carry one label. */
  ghost predicate Coarser(pred: seq<int>, f: seq<int>) {
    |pred| <= |f| && forall i, j :: 0 <= i < |pred| && 0 <= j < |pred| && pred[i] == pred[j] ==> f[i] == f[j]
  }

  lemma RootsKnown(s: State, x: int)
    requires Inv(s) && x in s.rep
    ensures s.rep[x] in s.rep && s.rep[s.rep[x]] == s.rep[x]
  {
  }

  /** Whatever lands where the newcomer lands carries its label: it was linked to it. */
  lemma LandsLinked(cfg: Config, y: System, act: Activation, scored: seq<Scored>, f: seq<int>, i: nat)
    requires cfg.mode.Components? && Inv(y.s) && Coarser(Pred(y.s), f)
    requires Follows(f, LinksOf(y.s, act.alarm, scored)) && i < |y.s.actSid| < |f|
    requires var z := RaiseStep(cfg, y, act, scored);
             |z.s.actSid| == |y.s.actSid| + 1 && Pred(z.s)[i] == Pred(z.s)[|y.s.actSid|]
    ensures f[i] == f[|y.s.actSid|]
  {
    hide Inv, PlacementOf, PlaceStep, Answers, Moves, Target, Linked, LinksOf;
    var s := y.s;
    var p := PlacementOf(cfg, s, y.cross, act, scored);
    PlacementAnswers(cfg, s, y.cross, act, scored);
    PlaceRecords(s, act, p);
    PlaceRoots(s, act, p);
    TargetMeets(s, p, Get(s.sitOf, act.alarm));
    InvGiven(s, i);
    var o := s.rep[s.actSid[i]];
    RootsKnown(s, s.actSid[i]);
    ComponentsPlacement(cfg, s, y.cross, act, scored, o);
    var j := LinkedBy(s, act.alarm, scored, o);
    InvGiven(s, j);
    assert Pred(s)[i] == Pred(s)[j];
  }

  /** A placement changes no prediction except those it sends to where the newcomer lands. */
  lemma RaisePred(cfg: Config, y: System, act: Activation, scored: seq<Scored>, i: nat)
    requires Inv(y.s) && i < |y.s.actSid|
    ensures var t := RaiseStep(cfg, y, act, scored).s;
            && |t.actSid| == |y.s.actSid| + 1
            && (Pred(t)[i] == Pred(t)[|y.s.actSid|] || Pred(t)[i] == Pred(y.s)[i])
  {
    var p := PlacementOf(cfg, y.s, y.cross, act, scored);
    PlacementAnswers(cfg, y.s, y.cross, act, scored);
    PlaceRecords(y.s, act, p);
    PlaceRoots(y.s, act, p);
    assert y.s.actSid[i] in y.s.rep;
  }

  lemma Grown(pred: seq<int>, pred': seq<int>, f: seq<int>)
    requires Coarser(pred, f) && |pred'| == |pred| + 1 <= |f|
    requires forall i :: 0 <= i < |pred| ==> pred'[i] == pred'[|pred|] || pred'[i] == pred[i]
    requires forall i :: 0 <= i < |pred| && pred'[i] == pred'[|pred|] ==> f[i] == f[|pred|]
    ensures Coarser(pred', f)
  {
  }

  lemma RaiseCoarser(cfg: Config, y: System, act: Activation, scored: seq<Scored>, f: seq<int>)
    requires cfg.mode.Components? && Inv(y.s) && Coarser(Pred(y.s), f)
    requires Follows(f, LinksOf(y.s, act.alarm, scored)) && |y.s.actSid| < |f|
    ensures Coarser(Pred(RaiseStep(cfg, y, act, scored).s), f)
  {
    var before, after := Pred(y.s), Pred(RaiseStep(cfg, y, act, scored).s);
    PlacementAnswers(cfg, y.s, y.cross, act, scored);
    PlaceRecords(y.s, act, PlacementOf(cfg, y.s, y.cross, act, scored));
    forall i | 0 <= i < |before|
      ensures after[i] == after[|before|] || after[i] == before[i]
    {
      RaisePred(cfg, y, act, scored, i);
    }
    forall i | 0 <= i < |before| && after[i] == after[|before|]
      ensures f[i] == f[|before|]
    {
      LandsLinked(cfg, y, act, scored, f, i);
    }
    Grown(before, after, f);
  }

  lemma {:induction false} ReplayedJoins(cfg: Config, ops: seq<Op>)
    requires cfg.mode.Components?
    ensures Joined(Replayed(cfg, ops))
  {
    if ops != [] {
      var y := Replayed(cfg, ops[..|ops| - 1]);
      ReplayedJoins(cfg, ops[..|ops| - 1]);
      ReplayedKeeps(cfg, ops[..|ops| - 1]);
      match ops[|ops| - 1]
      case Cleared(alarm, at) =>
        ClearRoots(y.s, alarm, at, cfg.hold);
      case Raised(act, scored) =>
        PrepareKeeps(y.s, act.ts, cfg.hold);
        PrepareRoots(y.s, act.ts, cfg.hold);
        RaiseJoins(cfg, Ready(cfg, y, act.ts), act, scored);
    }
  }

  lemma RaiseFollows(cfg: Config, y: System, act: Activation, scored: seq<Scored>, f: seq<int>)
    requires Inv(y.s) && Follows(f, RaiseStep(cfg, y, act, scored).links)
    requires |f| >= |RaiseStep(cfg, y, act, scored).s.actSid|
    ensures Follows(f, y.links) && Follows(f, LinksOf(y.s, act.alarm, scored)) && |f| > |y.s.actSid|
  {
    hide Inv, PlacementOf, LinksOf, PlaceStep, Answers, Moves, Target;
    PlacementAnswers(cfg, y.s, y.cross, act, scored);
    PlaceRecords(y.s, act, PlacementOf(cfg, y.s, y.cross, act, scored));
  }

  /** What a labelling that follows the links after an operation does before it. */
  lemma AdvanceFollows(cfg: Config, y: System, op: Op, f: seq<int>)
    requires Inv(y.s) && Follows(f, Advance(cfg, y, op).links) && |f| >= |Advance(cfg, y, op).s.actSid|
    ensures Follows(f, y.links) && |f| >= |y.s.actSid|
  {
    hide Inv, ClearStep, ExpireStep, SweepStep, RaiseStep;
    match op
    case Cleared(alarm, at) => ClearRoots(y.s, alarm, at, cfg.hold);
    case Raised(act, scored) =>
      PrepareKeeps(y.s, act.ts, cfg.hold);
      PrepareRoots(y.s, act.ts, cfg.hold);
      RaiseFollows(cfg, Ready(cfg, y, act.ts), act, scored, f);
  }

  lemma AdvanceCoarser(cfg: Config, y: System, op: Op, f: seq<int>)
    requires cfg.mode.Components? && Inv(y.s) && Coarser(Pred(y.s), f)
    requires Follows(f, Advance(cfg, y, op).links) && |f| >= |Advance(cfg, y, op).s.actSid|
    ensures Coarser(Pred(Advance(cfg, y, op).s), f)
  {
    hide Inv, ClearStep, ExpireStep, SweepStep, RaiseStep, Coarser;
    match op
    case Cleared(alarm, at) => ClearRoots(y.s, alarm, at, cfg.hold);
    case Raised(act, scored) =>
      var ready := Ready(cfg, y, act.ts);
      PrepareKeeps(y.s, act.ts, cfg.hold);
      PrepareRoots(y.s, act.ts, cfg.hold);
      RaiseFollows(cfg, ready, act, scored, f);
      RaiseCoarser(cfg, ready, act, scored, f);
  }

  lemma {:induction false} ReplayedCoarser(cfg: Config, ops: seq<Op>, f: seq<int>)
    requires cfg.mode.Components? && Follows(f, Replayed(cfg, ops).links)
    requires |f| >= |Replayed(cfg, ops).s.actSid|
    ensures Coarser(Pred(Replayed(cfg, ops).s), f)
  {
    hide Inv, Advance, Follows;
    if ops != [] {
      var y := Replayed(cfg, ops[..|ops| - 1]);
      ReplayedKeeps(cfg, ops[..|ops| - 1]);
      AdvanceFollows(cfg, y, ops[|ops| - 1], f);
      ReplayedCoarser(cfg, ops[..|ops| - 1], f);
      AdvanceCoarser(cfg, y, ops[|ops| - 1], f);
    }
  }

  /** In components mode two activations share a situation at the end if and only if they are
      connected by accepted links: no labelling that follows every link tells them apart. */
  lemma SituationsAreComponents(cfg: Config, ops: seq<Op>, i: nat, j: nat)
    requires cfg.mode.Components?
    requires i < |Replayed(cfg, ops).s.actSid| && j < |Replayed(cfg, ops).s.actSid|
    ensures var y := Replayed(cfg, ops);
            Pred(y.s)[i] == Pred(y.s)[j] <==>
            forall f: seq<int> | |f| == |y.s.actSid| && Follows(f, y.links) :: f[i] == f[j]
  {
    var y := Replayed(cfg, ops);
    ReplayedJoins(cfg, ops);
    assert Follows(Pred(y.s), y.links);
    if Pred(y.s)[i] == Pred(y.s)[j] {
      forall f: seq<int> | |f| == |y.s.actSid| && Follows(f, y.links)
        ensures f[i] == f[j]
      {
        ReplayedCoarser(cfg, ops, f);
      }
    }
  }
}
