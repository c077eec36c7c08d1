/**
 Where an alarm raised again ends up: with what it was in before, or apart from it. The replay under the
 appliance's grouper is one of the runs that `Replay` studies, so what holds of them holds of it.
 */
module Returns {
  import opened Wrappers
  import opened Grouping
  import opened Replay
  import opened Partition
  import opened Correlation
  import opened Timing

  // ---------- an alarm that has left its situation ----------

  /** The situation of an alarm's last activation is gone, where the alarm is placed no more. */
  ghost predicate Left(s: State) {
    forall a :: a in s.latest && a !in s.sitOf && s.latest[a] < |s.actSid| ==>
      Root(s.rep, s.actSid[s.latest[a]]) !in s.members
  }

  lemma CloseLeft(s: State, dead: set<int>)
    requires Inv(s) && Left(s)
    ensures Left(CloseAll(s, dead))
  {
    var t := CloseAll(s, dead);
    CloseSits(s, dead);
    hide AlarmsIn;
    forall a | a in t.latest && a !in t.sitOf && t.latest[a] < |t.actSid|
      ensures Root(t.rep, t.actSid[t.latest[a]]) !in t.members
    {
      assert a in s.sitOf ==> s.rep[s.actSid[s.latest[a]]] == s.sitOf[a];
    }
  }

  lemma SweepLeft(s: State, ts: real)
    requires Inv(s) && Left(s)
    ensures Left(SweepStep(s, ts))
  {
    hide CloseAll, Idle, Inv;
    CloseLeft(s, Idle(s, ts));
  }

  lemma PrepareLeft(s: State, ts: real, hold: real)
    requires Inv(s) && Left(s)
    ensures Left(Prepare(s, ts, hold))
  {
    hide CloseAll, Expired, Inv, SweepStep, Left;
    CloseLeft(s, Expired(s, ts, hold));
    ExpireKeeps(s, ts, hold);
    SweepLeft(ExpireStep(s, ts, hold), ts);
  }

  lemma ClearLeft(s: State, alarm: int, at: real, hold: real)
    requires Inv(s) && Left(s)
    ensures Left(ClearStep(s, alarm, at, hold))
  {
    hide CloseAll, Quiet, ClearStep, Inv;
    var q := s.(active := s.active[alarm := false]);
    ClearIs(s, alarm, at, hold);
    QuieterKeeps(s, alarm);
    if alarm in s.sitOf {
      CloseLeft(q, {s.sitOf[alarm]});
    }
  }

  lemma PlaceSits(s: State, act: Activation, p: Placement)
    requires Inv(s)
    ensures var t := PlaceStep(s, act, p);
            t.sitOf.Keys == s.sitOf.Keys + {act.alarm} && t.latest == s.latest[act.alarm := |s.actSid|]
  {
    hide Open, AbsorbAll, InvFolding, Target, Comparisons;
    var landing := Open(s, act.alarm, p);
    CarriedSits(s, act, p);
    AbsorbAllFrame(landing, Target(s, p), p.merge);
    OpenFrame(s, act.alarm, p);
  }

  lemma CarriedSits(s: State, act: Activation, p: Placement)
    requires Inv(s)
    ensures AbsorbAll(Open(s, act.alarm, p), Target(s, p), p.merge).sitOf.Keys == s.sitOf.Keys
  {
    hide Open, AbsorbAll, Target, Inverse, Rooted, Recorded, Followed, Burning, Judged;
    OpenKeeps(s, act.alarm, p);
    AbsorbAllKeeps(Open(s, act.alarm, p), Target(s, p), p.merge);
  }

  lemma PlaceLeft(s: State, act: Activation, p: Placement)
    requires Inv(s) && Left(s) && Moves(s, act.alarm, p)
    ensures Left(PlaceStep(s, act, p))
  {
    var t := PlaceStep(s, act, p);
    hide PlaceStep, Moves, Inverse, Followed, Burning, Judged;
    PlaceSits(s, act, p);
    PlaceRecords(s, act, p);
    forall a | a in t.latest && a !in t.sitOf && t.latest[a] < |t.actSid|
      ensures Root(t.rep, t.actSid[t.latest[a]]) !in t.members
    {
      var root := s.rep[s.actSid[s.latest[a]]];
      assert Root(s.rep, s.actSid[s.latest[a]]) == root;
      PlaceGivesClosedNothing(s, act, p, root);
      assert Belongs(s, s.latest[a], root);
      assert Belongs(t, s.latest[a], root);
    }
  }

  lemma {:induction false} RunLeft(es: seq<Event>, hold: real)
    requires AnsweredAll(START, es, hold)
    ensures Left(Run(START, es, hold))
  {
    hide Inv, Left, ClearStep, Prepare, PlaceStep, Moves;
    if es == [] {
      NobodyLeft();
    } else {
      var rest, last := es[..|es| - 1], es[|es| - 1];
      var s := Run(START, rest, hold);
      RunLeft(rest, hold);
      StartHolds();
      RunKeeps(START, rest, hold);
      match last.op
      case Cleared(alarm, at) => ClearLeft(s, alarm, at, hold);
      case Raised(act, _) =>
        PrepareLeft(s, act.ts, hold);
        PrepareKeeps(s, act.ts, hold);
        PlaceLeft(Prepare(s, act.ts, hold), act, last.placement);
    }
  }

  lemma NobodyLeft()
    ensures Left(START)
  {
  }

  // ---------- coming back ----------

  lemma PrepareSits(s: State, ts: real, hold: real, a: int)
    requires Inv(s)
    ensures var t := Prepare(s, ts, hold);
            a in t.sitOf <==> a in s.sitOf && s.sitOf[a] in t.members
    ensures var t := Prepare(s, ts, hold);
            a in t.sitOf ==> t.sitOf[a] == s.sitOf[a]
  {
    var e := ExpireStep(s, ts, hold);
    CloseSits(s, Expired(s, ts, hold));
    ExpireKeeps(s, ts, hold);
    CloseSits(e, Idle(e, ts));
    hide AlarmsIn, Expired, Idle, Rooted, Recorded, Followed, Burning, Judged;
  }

  lemma WhereItWas(s: State, a: int, k: nat)
    requires Inv(s) && Left(s) && Get(s.latest, a) == Some(k)
    ensures k < |s.actSid| && s.actSid[k] in s.rep
    ensures a in s.sitOf <==> s.rep[s.actSid[k]] in s.members
    ensures a in s.sitOf ==> s.sitOf[a] == s.rep[s.actSid[k]]
  {
    assert Root(s.rep, s.actSid[k]) == s.rep[s.actSid[k]];
  }

  lemma RootIsRoot(s: State, x: int)
    requires Inv(s) && x in s.rep
    ensures s.rep[x] in s.rep && s.rep[s.rep[x]] == s.rep[x]
  {
  }

  /** Placed again, the activation is predicted with the alarm's last one exactly when the alarm is placed. */
  lemma PlacedTogether(s: State, act: Activation, p: Placement, k: nat)
    requires Inv(s) && Left(s) && Moves(s, act.alarm, p) && Get(s.latest, act.alarm) == Some(k)
    ensures var t := PlaceStep(s, act, p);
            && k < |s.actSid| && |t.actSid| == |s.actSid| + 1
            && (Pred(t)[|s.actSid|] == Pred(t)[k] <==> act.alarm in s.sitOf)
  {
    hide PlaceStep, Target, Inv, Left;
    WhereItWas(s, act.alarm, k);
    PlaceRecords(s, act, p);
    PlaceRoots(s, act, p);
    var t, sid, root := PlaceStep(s, act, p), Target(s, p), s.rep[s.actSid[k]];
    if act.alarm in s.sitOf {
      var x := s.actSid[k];
      assert root == s.sitOf[act.alarm] && root in s.members && (root == sid || root in p.merge);
      assert t.rep[x] == if s.rep[x] in p.merge && s.rep[x] in s.members then sid else s.rep[x];
      assert t.actSid[k] == x && t.actSid[|s.actSid|] == sid;
    } else {
      RootIsRoot(s, s.actSid[k]);
      PlaceGivesClosedNothing(s, act, p, root);
      assert Belongs(s, k, root) && !Belongs(s, |s.actSid|, root);
      assert Belongs(t, k, root) && !Belongs(t, |s.actSid|, root);
    }
  }

  lemma {:induction false} RunLatest(es: seq<Event>, hold: real, a: int)
    requires AnsweredAll(START, es, hold)
    ensures Get(Run(START, es, hold).latest, a) == LastOf(Activations(OpsOf(es)), a)
  {
    hide Run, LastOf, Paired, Touched, Waiting, LastSweep;
    RunRecords(es, hold);
    RunTimed(es, hold);
  }

  /** Over every run: an activation of an alarm activated before is predicted with the alarm's last one if and
      only if the situation of that one is still live and does not lapse. */
  lemma RejoinsExactly(es: seq<Event>, hold: real, act: Activation, scored: seq<Scored>, p: Placement, k: nat)
    requires AnsweredAll(START, es, hold) && Answered(Run(START, es, hold), Event(Raised(act, scored), p), hold)
    requires LastOf(Activations(OpsOf(es)), act.alarm) == Some(k)
    ensures var s := Run(START, es, hold);
            var t := Step(s, Event(Raised(act, scored), p), hold);
            && k < |s.actSid| == |Activations(OpsOf(es))| && s.actSid[k] in s.rep && |t.actSid| == |s.actSid| + 1
            && (Pred(t)[|s.actSid|] == Pred(t)[k] <==>
                var o := s.rep[s.actSid[k]];
                o in s.members && !Lapses(OpsOf(es), s.actSid, o, s.members[o], act.ts, hold))
  {
    hide Inv, Left, Run, Prepare, PlaceStep, Lapses, Moves, LastOf, Pred, Touched, Waiting, LastSweep, Burns;
    var s := Run(START, es, hold);
    var r := Prepare(s, act.ts, hold);
    RunTimed(es, hold);
    RunLeft(es, hold);
    RunLatest(es, hold, act.alarm);
    PrepareKeeps(s, act.ts, hold);
    PrepareLeft(s, act.ts, hold);
    PrepareRecords(s, act.ts, hold);
    PrepareSits(s, act.ts, hold, act.alarm);
    PlacedTogether(r, act, p, k);
    WhereItWas(s, act.alarm, k);
    if s.rep[s.actSid[k]] in s.members {
      ClosesExactly(es, hold, act.ts, s.rep[s.actSid[k]]);
    }
    assert r.members.Keys <= s.members.Keys;
  }

  /** In particular: an alarm whose clear left its situation with nothing raised comes back to it, raised again
      before the hold is over - unless a sweep is due and nothing landed there for more than an hour - and from
      then on does not. */
  lemma RaisedAgain(es: seq<Event>, hold: real, alarm: int, at: real, p0: Placement, act: Activation,
                    scored: seq<Scored>, p: Placement, k: nat)
    requires hold > 0.0 && act.alarm == alarm
    requires var cleared := es + [Event(Cleared(alarm, at), p0)];
             && AnsweredAll(START, cleared, hold) && AnsweredAll(START, es, hold)
             && Answered(Run(START, cleared, hold), Event(Raised(act, scored), p), hold)
    requires LastOf(Activations(OpsOf(es)), alarm) == Some(k)
    requires var s := Run(START, es, hold);
             && k < |s.actSid| && s.actSid[k] in s.rep && s.rep[s.actSid[k]] in s.members
             && NoneBurns(OpsOf(es) + [Cleared(alarm, at)], s.members[s.rep[s.actSid[k]]])
    ensures var s := Run(START, es + [Event(Cleared(alarm, at), p0)], hold);
            var t := Step(s, Event(Raised(act, scored), p), hold);
            && k < |s.actSid| == |Activations(OpsOf(es))| && s.actSid[k] in s.rep && |t.actSid| == |s.actSid| + 1
            && (Pred(t)[|s.actSid|] == Pred(t)[k] <==>
                var o := s.rep[s.actSid[k]];
                var sweep := LastSweep(Activations(OpsOf(es)));
                var landing := LastLanding(Activations(OpsOf(es)), s.actSid, o);
                && act.ts - at < hold
                && !((sweep == None || act.ts - sweep.value >= 60.0)
                     && landing != None && act.ts - landing.value > 3600.0))
  {
    hide Inv, Left, Run, PlaceStep, Prepare, ClearStep, Moves, LastOf, Pred, Burns, LastSweep, LastLanding, Timed;
    var cleared := es + [Event(Cleared(alarm, at), p0)];
    var s, u := Run(START, es, hold), Run(START, cleared, hold);
    var o := s.rep[s.actSid[k]];
    RunMore(es, Event(Cleared(alarm, at), p0), hold);
    assert OpsOf(cleared) == OpsOf(es) + [Cleared(alarm, at)];
    ToldMore(OpsOf(es), Cleared(alarm, at), alarm);
    assert Activations(OpsOf(cleared)) == Activations(OpsOf(es));
    assert u == ClearStep(s, alarm, at, hold);
    RunTimed(es, hold);
    RunLeft(es, hold);
    RunLatest(es, hold, alarm);
    WhereItWas(s, alarm, k);
    PlacedIn(s, alarm);
    ClearClosesExactly(es, hold, alarm, at, o);
    ClearRecords(s, alarm, at, hold);
    ClearKeepsOther(s, alarm, at, hold, o);
    ClearedNow(OpsOf(es), alarm, at, s.members[o]);
    RejoinsExactly(cleared, hold, act, scored, p, k);
  }

  lemma PlacedIn(s: State, a: int)
    requires Inv(s) && a in s.sitOf
    ensures Inverse(s.sitOf, s.members) && s.sitOf[a] in s.members && a in s.members[s.sitOf[a]]
  {
  }

  lemma ClearedNow(ops: seq<Op>, alarm: int, at: real, alarms: set<int>)
    requires alarm in alarms
    ensures LastClear(ops + [Cleared(alarm, at)], alarms) == Some(at)
  {
  }

  lemma RunMore(es: seq<Event>, e: Event, hold: real)
    ensures Run(START, es + [e], hold) == Step(Run(START, es, hold), e, hold)
  {
    assert (es + [e])[..|es|] == es;
  }

  // ---------- the replay under the appliance's grouper ----------

  function EventIn(cfg: Config, y: System, op: Op): Event {
    match op
    case Cleared(_, _) => Event(op, Placement(None, [], []))
    case Raised(act, scored) =>
      var ready := Ready(cfg, y, act.ts);
      Event(op, PlacementOf(cfg, ready.s, ready.cross, act, scored))
  }

  /** The stream with the answers its grouper gives. */
  function EventsOf(cfg: Config, ops: seq<Op>): seq<Event> {
    if ops == [] then []
    else EventsOf(cfg, ops[..|ops| - 1]) + [EventIn(cfg, Replayed(cfg, ops[..|ops| - 1]), ops[|ops| - 1])]
  }

  /** The replay under the appliance's grouper is a run that keeps the contract, of the same stream: all that
      is proved of runs holds of it. */
  lemma {:induction false} ReplayedIsRun(cfg: Config, ops: seq<Op>)
    ensures var es := EventsOf(cfg, ops);
            OpsOf(es) == ops && AnsweredAll(START, es, cfg.hold) && Replayed(cfg, ops).s == Run(START, es, cfg.hold)
  {
    hide Inv, Advance, Step, Answered, EventIn;
    if ops != [] {
      var rest, last := ops[..|ops| - 1], ops[|ops| - 1];
      var y, before := Replayed(cfg, rest), EventsOf(cfg, rest);
      var e := EventIn(cfg, y, last);
      ReplayedIsRun(cfg, rest);
      ReplayedKeeps(cfg, rest);
      AdvanceIsStep(cfg, y, last);
      assert (before + [e])[..|before|] == before;
      assert ops == rest + [last] && OpsOf(before + [e]) == OpsOf(before) + [e.op];
    }
  }

  lemma AdvanceIsStep(cfg: Config, y: System, op: Op)
    requires Inv(y.s)
    ensures var e := EventIn(cfg, y, op);
            e.op == op && Answered(y.s, e, cfg.hold) && Advance(cfg, y, op).s == Step(y.s, e, cfg.hold)
  {
    hide Inv, ClearStep, ExpireStep, SweepStep, PlaceStep, PlacementOf, Moves, Commit, Notes, LinksOf;
    match op
    case Cleared(_, _) =>
    case Raised(act, scored) =>
      var ready := Ready(cfg, y, act.ts);
      PrepareKeeps(y.s, act.ts, cfg.hold);
      PlacementAnswers(cfg, ready.s, ready.cross, act, scored);
  }

  /** An alarm that is placed nowhere, scored against nothing, gets a fresh situation. */
  lemma FreshWithoutEvidence(cfg: Config, s: State, cross: Cross, act: Activation)
    requires act.alarm !in s.sitOf
    ensures var p := PlacementOf(cfg, s, cross, act, []);
            && p.join == None && p.merge == []
            && PlaceStep(s, act, p).actSid == s.actSid + [s.nextSid] && PlaceStep(s, act, p).nextSid == s.nextSid + 1
  {
    hide Open, Comparisons;
    var p := PlacementOf(cfg, s, cross, act, []);
    if cfg.mode.Components? {
      assert Linked([], s.sitOf, None) == {};
    } else {
      ClusterJoin(cfg.params, cross, [], s.sitOf, None);
    }
    OpenFresh(s, act.alarm, p);
  }

  lemma OpenFresh(s: State, alarm: int, p: Placement)
    requires p.join == None
    ensures Open(s, alarm, p).actSid == s.actSid && Open(s, alarm, p).nextSid == s.nextSid + 1
  {
  }
}
