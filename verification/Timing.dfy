/**
 When the replay closes a situation, told from the stream alone: whether one of its alarms was raised last,
 when one of them was cleared last, when an activation landed in it last, and when the last sweep was.
 */
module Timing {
  import opened Wrappers
  import opened Grouping
  import opened Replay
  import opened Partition
  import opened Correlation

  // ---------- what the stream says ----------

  /** The last word on the alarm is that it is raised. */
  predicate Burns(ops: seq<Op>, alarm: int) {
    if ops == [] then false
    else
      match ops[|ops| - 1]
      case Cleared(a, _) => a != alarm && Burns(ops[..|ops| - 1], alarm)
      case Raised(act, _) => act.alarm == alarm || Burns(ops[..|ops| - 1], alarm)
  }

  /** When one of these alarms was cleared last. */
  function LastClear(ops: seq<Op>, alarms: set<int>): Option<real> {
    if ops == [] then None
    else
      match ops[|ops| - 1]
      case Cleared(a, at) => if a in alarms then Some(at) else LastClear(ops[..|ops| - 1], alarms)
      case Raised(_, _) => LastClear(ops[..|ops| - 1], alarms)
  }

  /** When an activation was last given this situation. */
  function LastLanding(acts: seq<Activation>, sids: seq<int>, sid: int): Option<real>
    requires |acts| == |sids|
  {
    if acts == [] then None
    else if sids[|sids| - 1] == sid then Some(acts[|acts| - 1].ts)
    else LastLanding(acts[..|acts| - 1], sids[..|sids| - 1], sid)
  }

  /** When the last sweep was: one is made at the first activation, then at each that comes a minute or more
      after the last one. */
  function LastSweep(acts: seq<Activation>): Option<real> {
    if acts == [] then None
    else
      var before, ts := LastSweep(acts[..|acts| - 1]), acts[|acts| - 1].ts;
      if before == None || ts >= before.value + 60.0 then Some(ts) else before
  }

  // ---------- the replay's clocks are these ----------

  ghost predicate Told(s: State, ops: seq<Op>) {
    && s.acts == Activations(ops) && |s.acts| == |s.actSid|
    && (forall a :: Active(s.active, a) <==> Burns(ops, a))
    && s.nextSweep == if LastSweep(s.acts) == None then None else Some(LastSweep(s.acts).value + 60.0)
  }

  ghost predicate Touched(s: State) {
    && |s.acts| == |s.actSid|
    && forall o :: o in s.members ==> o in s.touched && LastLanding(s.acts, s.actSid, o) == Some(s.touched[o])
  }

  /** A live situation with nothing active waits out its hold since its last clear. */
  ghost predicate Waits(s: State, ops: seq<Op>, hold: real, o: int)
    requires o in s.members
  {
    Quiet(s, o) ==> hold > 0.0 && o in s.clearedSince && LastClear(ops, s.members[o]) == Some(s.clearedSince[o])
  }

  ghost predicate Waiting(s: State, ops: seq<Op>, hold: real) {
    forall o {:trigger o in s.members} :: o in s.members ==> Waits(s, ops, hold, o)
  }

  ghost predicate Timed(s: State, ops: seq<Op>, hold: real) {
    Told(s, ops) && Touched(s) && Waiting(s, ops, hold)
  }

  /** What survives in `t` of `s` is as it was. */
  ghost predicate Survives(s: State, t: State, o: int) {
    && o in s.members && o in t.members && t.members[o] == s.members[o]
    && (o in t.touched <==> o in s.touched) && (o in s.touched ==> t.touched[o] == s.touched[o])
    && (o in t.clearedSince <==> o in s.clearedSince)
    && (o in s.clearedSince ==> t.clearedSince[o] == s.clearedSince[o])
  }

  lemma CloseSurvives(s: State, dead: set<int>)
    ensures var t := CloseAll(s, dead);
            && t.active == s.active && t.nextSweep == s.nextSweep
            && forall o :: o in t.members ==> o !in dead && Survives(s, t, o)
  {
    hide AlarmsIn;
  }

  lemma ExpireSurvives(s: State, ts: real, hold: real)
    ensures var t := ExpireStep(s, ts, hold);
            && t.active == s.active && t.nextSweep == s.nextSweep && SameRecords(s, t)
            && t.members.Keys == s.members.Keys - Expired(s, ts, hold)
            && forall o :: o in t.members ==> Survives(s, t, o)
  {
    hide CloseAll, Expired, Survives;
    CloseSurvives(s, Expired(s, ts, hold));
    CloseRecords(s, Expired(s, ts, hold));
  }

  lemma SweepSurvives(s: State, ts: real)
    ensures var t := SweepStep(s, ts);
            && t.active == s.active && SameRecords(s, t)
            && t.nextSweep == (if s.nextSweep == None || ts >= s.nextSweep.value then Some(ts + 60.0) else s.nextSweep)
            && t.members.Keys == s.members.Keys - Idle(s, ts)
            && forall o :: o in t.members ==> Survives(s, t, o)
  {
    hide CloseAll, Idle;
    CloseSurvives(s, Idle(s, ts));
    CloseRecords(s, Idle(s, ts));
  }

  lemma SurvivesTwice(s: State, t: State, u: State, o: int)
    requires Survives(s, t, o) && Survives(t, u, o)
    ensures Survives(s, u, o)
  {
  }

  lemma PrepareSurvives(s: State, ts: real, hold: real)
    ensures var t := Prepare(s, ts, hold);
            && t.active == s.active && SameRecords(s, t)
            && t.nextSweep == (if s.nextSweep == None || ts >= s.nextSweep.value then Some(ts + 60.0) else s.nextSweep)
            && t.members.Keys == s.members.Keys - Expired(s, ts, hold) - Idle(ExpireStep(s, ts, hold), ts)
            && forall o :: o in t.members ==> Survives(s, t, o)
  {
    hide ExpireStep, SweepStep, Expired, Idle, Survives;
    var expired := ExpireStep(s, ts, hold);
    ExpireSurvives(s, ts, hold);
    SweepSurvives(expired, ts);
    forall o | o in Prepare(s, ts, hold).members
      ensures Survives(s, Prepare(s, ts, hold), o)
    {
      SurvivesTwice(s, expired, Prepare(s, ts, hold), o);
    }
  }

  lemma QuietSurvives(s: State, t: State, o: int)
    requires Survives(s, t, o) && t.active == s.active
    ensures Quiet(t, o) <==> Quiet(s, o)
  {
  }

  lemma TouchedSurvives(s: State, t: State)
    requires Touched(s) && t.acts == s.acts && t.actSid == s.actSid
    requires forall o :: o in t.members ==> Survives(s, t, o)
    ensures Touched(t)
  {
    hide LastLanding;
    forall o | o in t.members
      ensures o in t.touched && LastLanding(t.acts, t.actSid, o) == Some(t.touched[o])
    {
      assert Survives(s, t, o);
    }
  }

  lemma WaitingSurvives(s: State, t: State, ops: seq<Op>, hold: real)
    requires Waiting(s, ops, hold) && t.active == s.active && forall o :: o in t.members ==> Survives(s, t, o)
    ensures Waiting(t, ops, hold)
  {
    hide Quiet, LastClear;
    forall o | o in t.members
      ensures Waits(t, ops, hold, o)
    {
      QuietSurvives(s, t, o);
      assert Waits(s, ops, hold, o);
    }
  }

  // ---------- when a situation closes ----------

  ghost predicate NoneBurns(ops: seq<Op>, alarms: set<int>) {
    forall a :: a in alarms ==> !Burns(ops, a)
  }

  lemma QuietIsTold(s: State, ops: seq<Op>, o: int)
    requires Told(s, ops) && o in s.members
    ensures Quiet(s, o) <==> NoneBurns(ops, s.members[o])
  {
    assert forall a :: a in s.members[o] ==> (Active(s.active, a) <==> Burns(ops, a));
  }

  /** None of the situation's alarms was raised last, and either the last clear of one of them lies the hold
      back or more, or the last sweep lies a minute back or more and the last activation that landed in the
      situation more than an hour. */
  ghost predicate Lapses(ops: seq<Op>, sids: seq<int>, o: int, alarms: set<int>, ts: real, hold: real)
    requires |sids| == |Activations(ops)|
  {
    var clear, sweep := LastClear(ops, alarms), LastSweep(Activations(ops));
    var landing := LastLanding(Activations(ops), sids, o);
    && NoneBurns(ops, alarms)
    && ((clear != None && ts - clear.value >= hold)
        || ((sweep == None || ts - sweep.value >= 60.0) && landing != None && ts - landing.value > 3600.0))
  }

  lemma ExpiredExactly(s: State, ops: seq<Op>, hold: real, ts: real, o: int)
    requires Inv(s) && Told(s, ops) && Waiting(s, ops, hold) && o in s.members
    ensures o in Expired(s, ts, hold) <==>
            var clear := LastClear(ops, s.members[o]);
            NoneBurns(ops, s.members[o]) && clear != None && ts - clear.value >= hold
  {
    hide LastClear, NoneBurns, Inverse, Rooted, Followed, Recorded, Judged, Told, Quiet;
    QuietIsTold(s, ops, o);
    assert Waits(s, ops, hold, o);
    assert o in s.clearedSince ==> Quiet(s, o);
  }

  lemma IdleExactly(s: State, ops: seq<Op>, ts: real, o: int)
    requires Told(s, ops) && Touched(s) && o in s.members
    ensures o in Idle(s, ts) <==>
            var sweep, landing := LastSweep(s.acts), LastLanding(s.acts, s.actSid, o);
            && NoneBurns(ops, s.members[o])
            && (sweep == None || ts - sweep.value >= 60.0) && landing != None && ts - landing.value > 3600.0
  {
    hide NoneBurns, Quiet, LastSweep, LastLanding, Burns;
    QuietIsTold(s, ops, o);
  }

  lemma LapsesExactly(s: State, ops: seq<Op>, hold: real, ts: real, o: int)
    requires Inv(s) && Timed(s, ops, hold) && o in s.members
    ensures o !in Prepare(s, ts, hold).members <==> Lapses(ops, s.actSid, o, s.members[o], ts, hold)
  {
    hide Inv, Prepare, Expired, Idle, Waiting, LastClear, LastSweep, LastLanding, NoneBurns, ExpireStep, Activations;
    var t := ExpireStep(s, ts, hold);
    PrepareSurvives(s, ts, hold);
    ExpireSurvives(s, ts, hold);
    ExpiredExactly(s, ops, hold, ts, o);
    if o in t.members {
      TouchedSurvives(s, t);
      IdleExactly(t, ops, ts, o);
    }
  }

  // ---------- every step keeps the clocks ----------

  lemma PrepareTold(s: State, ops: seq<Op>, ts: real, hold: real)
    requires Timed(s, ops, hold)
    ensures var t := Prepare(s, ts, hold);
            && t.acts == s.acts && t.actSid == s.actSid && t.active == s.active
            && Touched(t) && Waiting(t, ops, hold)
            && t.nextSweep == (if LastSweep(s.acts) == None || ts >= LastSweep(s.acts).value + 60.0 then Some(ts + 60.0)
                               else Some(LastSweep(s.acts).value + 60.0))
  {
    hide Prepare, Touched, Waiting, Survives, LastSweep, Burns, Activations;
    PrepareSurvives(s, ts, hold);
    TouchedSurvives(s, Prepare(s, ts, hold));
    WaitingSurvives(s, Prepare(s, ts, hold), ops, hold);
  }

  lemma Without(ops: seq<Op>, op: Op)
    ensures (ops + [op])[..|ops + [op]| - 1] == ops && (ops + [op])[|ops + [op]| - 1] == op
  {
  }

  lemma ToldMore(ops: seq<Op>, op: Op, a: int)
    ensures Burns(ops + [op], a) <==>
            match op
            case Cleared(b, _) => b != a && Burns(ops, a)
            case Raised(act, _) => act.alarm == a || Burns(ops, a)
    ensures Activations(ops + [op]) == Activations(ops) + if op.Raised? then [op.act] else []
  {
    Without(ops, op);
  }

  lemma ClearTold(s: State, ops: seq<Op>, alarm: int, at: real, hold: real)
    requires Told(s, ops)
    ensures Told(ClearStep(s, alarm, at, hold), ops + [Cleared(alarm, at)])
  {
    hide ClearStep, LastSweep, Burns, Activations;
    var t := ClearStep(s, alarm, at, hold);
    ClearRecords(s, alarm, at, hold);
    ClearActive(s, alarm, at, hold);
    forall a
      ensures Active(t.active, a) <==> Burns(ops + [Cleared(alarm, at)], a)
    {
      ToldMore(ops, Cleared(alarm, at), a);
      assert Active(t.active, a) <==> a != alarm && Active(s.active, a);
    }
    ToldMore(ops, Cleared(alarm, at), alarm);
  }

  lemma ClearIs(s: State, alarm: int, at: real, hold: real)
    ensures var q := s.(active := s.active[alarm := false]);
            ClearStep(s, alarm, at, hold) ==
            if !(alarm in s.sitOf && Quiet(q, s.sitOf[alarm])) then q
            else if hold <= 0.0 then CloseAll(q, {s.sitOf[alarm]})
            else q.(clearedSince := q.clearedSince[s.sitOf[alarm] := at])
  {
  }

  lemma ClearActive(s: State, alarm: int, at: real, hold: real)
    ensures var t := ClearStep(s, alarm, at, hold);
            t.active == s.active[alarm := false] && t.nextSweep == s.nextSweep
  {
    hide Quiet, CloseAll, ClearStep;
    var q := s.(active := s.active[alarm := false]);
    ClearIs(s, alarm, at, hold);
    if alarm in s.sitOf {
      CloseSurvives(q, {s.sitOf[alarm]});
    }
  }

  /** What is still live after a clear: as it was, but that a situation it left quiet waits from now on. */
  lemma ClearKeepsOther(s: State, alarm: int, at: real, hold: real, o: int)
    requires Inverse(s.sitOf, s.members) && o in ClearStep(s, alarm, at, hold).members
    ensures var t := ClearStep(s, alarm, at, hold);
            && o in s.members && t.members[o] == s.members[o]
            && (o in t.touched <==> o in s.touched) && (o in s.touched ==> t.touched[o] == s.touched[o])
            && (alarm !in s.members[o] ==> Survives(s, t, o))
            && (alarm in s.members[o] && Quiet(t, o) ==> hold > 0.0 && o in t.clearedSince && t.clearedSince[o] == at)
  {
    hide Quiet, CloseAll, ClearStep;
    var q := s.(active := s.active[alarm := false]);
    ClearIs(s, alarm, at, hold);
    ClearRecords(s, alarm, at, hold);
    assert alarm in s.members[o] ==> alarm in s.sitOf && s.sitOf[alarm] == o;
    assert alarm in s.sitOf && s.sitOf[alarm] == o ==> alarm in s.members[o];
    hide Inverse;
    if alarm in s.sitOf && Quiet(q, s.sitOf[alarm]) && hold <= 0.0 {
      CloseSurvives(q, {s.sitOf[alarm]});
    }
  }

  lemma ClearWaits(s: State, ops: seq<Op>, alarm: int, at: real, hold: real, o: int)
    requires Inverse(s.sitOf, s.members) && o in ClearStep(s, alarm, at, hold).members
    requires o in s.members && Waits(s, ops, hold, o)
    ensures Waits(ClearStep(s, alarm, at, hold), ops + [Cleared(alarm, at)], hold, o)
  {
    hide ClearStep, Inverse;
    var t := ClearStep(s, alarm, at, hold);
    Without(ops, Cleared(alarm, at));
    ClearKeepsOther(s, alarm, at, hold, o);
    ClearActive(s, alarm, at, hold);
    if alarm !in s.members[o] {
      assert forall m :: m in s.members[o] ==> (Active(t.active, m) <==> Active(s.active, m));
    }
  }

  lemma ClearTimed(s: State, ops: seq<Op>, alarm: int, at: real, hold: real)
    requires Inv(s) && Timed(s, ops, hold)
    ensures Timed(ClearStep(s, alarm, at, hold), ops + [Cleared(alarm, at)], hold)
  {
    hide ClearStep, Inverse, Rooted, Recorded, Followed, Burning, Judged, Told, LastLanding, Waits;
    var t := ClearStep(s, alarm, at, hold);
    ClearTold(s, ops, alarm, at, hold);
    ClearRecords(s, alarm, at, hold);
    forall o | o in t.members
      ensures o in t.touched && LastLanding(t.acts, t.actSid, o) == Some(t.touched[o])
      ensures Waits(t, ops + [Cleared(alarm, at)], hold, o)
    {
      ClearKeepsOther(s, alarm, at, hold, o);
      ClearWaits(s, ops, alarm, at, hold, o);
    }
  }

  // ---------- a placement ----------

  lemma AbsorbSurvives(s: State, sid: int, other: int)
    ensures var t := Absorb(s, sid, other);
            && t.active == s.active && t.nextSweep == s.nextSweep
            && forall o :: o in t.members && o != sid ==> Survives(s, t, o)
  {
  }

  lemma {:induction false} AbsorbAllSurvives(s: State, sid: int, merge: seq<int>)
    ensures var t := AbsorbAll(s, sid, merge);
            && t.active == s.active && t.nextSweep == s.nextSweep
            && forall o :: o in t.members && o != sid ==> Survives(s, t, o)
  {
    hide Absorb;
    if merge == [] {
    } else {
      var before := AbsorbAll(s, sid, merge[..|merge| - 1]);
      AbsorbAllSurvives(s, sid, merge[..|merge| - 1]);
      AbsorbSurvives(before, sid, merge[|merge| - 1]);
      forall o | o in AbsorbAll(s, sid, merge).members && o != sid
        ensures Survives(s, AbsorbAll(s, sid, merge), o)
      {
        SurvivesTwice(s, before, AbsorbAll(s, sid, merge), o);
      }
    }
  }

  lemma OpenSurvives(s: State, alarm: int, p: Placement)
    ensures var t := Open(s, alarm, p);
            && t.active == s.active && t.nextSweep == s.nextSweep
            && forall o :: o in t.members && o != Target(s, p) ==> Survives(s, t, o)
  {
  }

  lemma LandSurvives(s: State, act: Activation, sid: int)
    ensures var t := Land(s, act, sid);
            && t.active == s.active[act.alarm := true] && t.nextSweep == s.nextSweep
            && t.acts == s.acts + [act] && t.actSid == s.actSid + [sid]
            && sid in t.members && act.alarm in t.members[sid] && sid in t.touched && t.touched[sid] == act.ts
            && forall o :: o in t.members && o != sid ==> Survives(s, t, o)
  {
    hide Comparisons;
  }

  lemma PlaceSurvives(s: State, act: Activation, p: Placement)
    ensures var t, sid := PlaceStep(s, act, p), Target(s, p);
            && t.active == s.active[act.alarm := true] && t.nextSweep == s.nextSweep
            && t.acts == s.acts + [act] && t.actSid == s.actSid + [sid]
            && sid in t.members && act.alarm in t.members[sid] && sid in t.touched && t.touched[sid] == act.ts
            && forall o :: o in t.members && o != sid ==> Survives(s, t, o)
  {
    hide Open, AbsorbAll, Land, Target, Survives;
    var sid, landing := Target(s, p), Open(s, act.alarm, p);
    var folded := AbsorbAll(landing, sid, p.merge);
    OpenSurvives(s, act.alarm, p);
    OpenRecords(s, act.alarm, p);
    AbsorbAllSurvives(landing, sid, p.merge);
    AbsorbAllFrame(landing, sid, p.merge);
    LandSurvives(folded, act, sid);
    forall o | o in PlaceStep(s, act, p).members && o != sid
      ensures Survives(s, PlaceStep(s, act, p), o)
    {
      assert Survives(folded, PlaceStep(s, act, p), o);
      SurvivesBoth(folded, PlaceStep(s, act, p), o);
      SurvivesTwice(landing, folded, PlaceStep(s, act, p), o);
      SurvivesBoth(landing, folded, o);
      SurvivesTwice(s, landing, PlaceStep(s, act, p), o);
    }
  }

  lemma SurvivesBoth(s: State, t: State, o: int)
    requires Survives(s, t, o)
    ensures o in s.members && o in t.members
  {
  }

  lemma OpenRecords(s: State, alarm: int, p: Placement)
    ensures var t := Open(s, alarm, p); t.acts == s.acts && t.actSid == s.actSid
  {
  }

  lemma RaiseTold(s: State, r: State, ops: seq<Op>, act: Activation, scored: seq<Scored>, p: Placement)
    requires Told(s, ops) && r.acts == s.acts && r.actSid == s.actSid && r.active == s.active
    requires r.nextSweep == if LastSweep(s.acts) == None || act.ts >= LastSweep(s.acts).value + 60.0
                            then Some(act.ts + 60.0) else Some(LastSweep(s.acts).value + 60.0)
    ensures Told(PlaceStep(r, act, p), ops + [Raised(act, scored)])
  {
    hide PlaceStep, Target, Burns, Activations;
    var t := PlaceStep(r, act, p);
    PlaceSurvives(r, act, p);
    forall a
      ensures Active(t.active, a) <==> Burns(ops + [Raised(act, scored)], a)
    {
      ToldMore(ops, Raised(act, scored), a);
      assert Active(t.active, a) <==> a == act.alarm || Active(s.active, a);
    }
    ToldMore(ops, Raised(act, scored), act.alarm);
    SweepMore(s.acts, act);
  }

  lemma SweepMore(acts: seq<Activation>, act: Activation)
    ensures LastSweep(acts + [act]) ==
            if LastSweep(acts) == None || act.ts >= LastSweep(acts).value + 60.0 then Some(act.ts) else LastSweep(acts)
  {
    assert (acts + [act])[..|acts|] == acts;
  }

  lemma LandingNow(acts: seq<Activation>, sids: seq<int>, act: Activation, sid: int, o: int)
    requires |acts| == |sids|
    ensures LastLanding(acts + [act], sids + [sid], o) == if o == sid then Some(act.ts) else LastLanding(acts, sids, o)
  {
    assert (acts + [act])[..|acts + [act]| - 1] == acts && (sids + [sid])[..|sids + [sid]| - 1] == sids;
  }

  lemma RaiseTouched(r: State, act: Activation, p: Placement)
    requires Touched(r)
    ensures Touched(PlaceStep(r, act, p))
  {
    hide PlaceStep, Target, LastLanding;
    var t, sid := PlaceStep(r, act, p), Target(r, p);
    PlaceSurvives(r, act, p);
    forall o | o in t.members
      ensures o in t.touched && LastLanding(t.acts, t.actSid, o) == Some(t.touched[o])
    {
      LandingNow(r.acts, r.actSid, act, sid, o);
      assert o != sid ==> Survives(r, t, o);
    }
  }

  lemma RaiseWaiting(r: State, ops: seq<Op>, hold: real, act: Activation, scored: seq<Scored>, p: Placement)
    requires Inv(r) && Moves(r, act.alarm, p) && Waiting(r, ops, hold)
    ensures Waiting(PlaceStep(r, act, p), ops + [Raised(act, scored)], hold)
  {
    var t, sid := PlaceStep(r, act, p), Target(r, p);
    hide PlaceStep, Target, LastClear, Moves, Rooted, Recorded, Followed, Burning, Judged, Inverse;
    PlaceSurvives(r, act, p);
    PlaceKeeps(r, act, p);
    Without(ops, Raised(act, scored));
    forall o | o in t.members
      ensures Waits(t, ops + [Raised(act, scored)], hold, o)
    {
      if o == sid {
        assert Active(t.active, act.alarm);
      } else {
        OnlyOne(t.sitOf, t.members, act.alarm, sid, o);
        assert Survives(r, t, o) && Waits(r, ops, hold, o);
        assert forall m :: m in t.members[o] ==> (Active(t.active, m) <==> Active(r.active, m));
        ClearBefore(ops, Raised(act, scored), t.members[o]);
      }
    }
  }

  lemma ClearBefore(ops: seq<Op>, op: Op, alarms: set<int>)
    requires op.Raised?
    ensures LastClear(ops + [op], alarms) == LastClear(ops, alarms)
  {
    Without(ops, op);
  }

  lemma OnlyOne(sitOf: map<int, int>, members: map<int, set<int>>, a: int, sid: int, o: int)
    requires Inverse(sitOf, members) && sid in members && o in members && a in members[sid] && o != sid
    ensures a !in members[o]
  {
    assert sitOf[a] == sid;
  }

  lemma StepTimed(s: State, ops: seq<Op>, e: Event, hold: real)
    requires Inv(s) && Answered(s, e, hold) && Timed(s, ops, hold)
    ensures Timed(Step(s, e, hold), ops + [e.op], hold)
  {
    hide Inv, ClearStep, Prepare, PlaceStep, Told, Touched, Waiting, Moves, LastSweep;
    match e.op
    case Cleared(alarm, at) => ClearTimed(s, ops, alarm, at, hold);
    case Raised(act, scored) =>
      PrepareTold(s, ops, act.ts, hold);
      PrepareKeeps(s, act.ts, hold);
      RaiseTold(s, Prepare(s, act.ts, hold), ops, act, scored, e.placement);
      RaiseTouched(Prepare(s, act.ts, hold), act, e.placement);
      RaiseWaiting(Prepare(s, act.ts, hold), ops, hold, act, scored, e.placement);
  }

  lemma {:induction false} RunTimed(es: seq<Event>, hold: real)
    requires AnsweredAll(START, es, hold)
    ensures Inv(Run(START, es, hold)) && Timed(Run(START, es, hold), OpsOf(es), hold)
  {
    hide Inv, Timed, Step, Answered;
    if es == [] {
      StartTimed(hold);
    } else {
      var rest, last := es[..|es| - 1], es[|es| - 1];
      RunTimed(rest, hold);
      StartHolds();
      RunKeeps(START, es, hold);
      StepTimed(Run(START, rest, hold), OpsOf(rest), last, hold);
      assert OpsOf(es) == OpsOf(rest) + [last.op];
    }
  }

  lemma StartTimed(hold: real)
    ensures Inv(START) && Timed(START, [], hold)
  {
    StartHolds();
  }

  /** Over every run: a situation live so far is closed before an activation at `ts` exactly when it lapses,
      by what the stream says alone. */
  lemma ClosesExactly(es: seq<Event>, hold: real, ts: real, o: int)
    requires AnsweredAll(START, es, hold) && o in Run(START, es, hold).members
    ensures var s, ops := Run(START, es, hold), OpsOf(es);
            && |s.actSid| == |Activations(ops)|
            && (o !in Prepare(s, ts, hold).members <==> Lapses(ops, s.actSid, o, s.members[o], ts, hold))
  {
    hide Inv, Prepare, Lapses, Run;
    RunTimed(es, hold);
    LapsesExactly(Run(START, es, hold), OpsOf(es), hold, ts, o);
  }

  /** Over every run: a clear closes a live situation exactly when there is no hold, the alarm is one of the
      situation's, and none of them is raised any more. */
  lemma ClearClosesExactly(es: seq<Event>, hold: real, alarm: int, at: real, o: int)
    requires AnsweredAll(START, es, hold) && o in Run(START, es, hold).members
    ensures var s := Run(START, es, hold);
            o !in ClearStep(s, alarm, at, hold).members <==>
            hold <= 0.0 && alarm in s.members[o] && NoneBurns(OpsOf(es) + [Cleared(alarm, at)], s.members[o])
  {
    hide Rooted, Recorded, Followed, Burning, Judged, Run, Touched, Waiting, ClearStep, Burns, LastSweep, Activations;
    var s, ops := Run(START, es, hold), OpsOf(es);
    RunTimed(es, hold);
    ClearRecords(s, alarm, at, hold);
    var q := s.(active := s.active[alarm := false]);
    forall a
      ensures Active(q.active, a) <==> Burns(ops + [Cleared(alarm, at)], a)
    {
      ToldMore(ops, Cleared(alarm, at), a);
      assert Active(q.active, a) <==> a != alarm && Active(s.active, a);
    }
    assert alarm in s.members[o] ==> alarm in s.sitOf && s.sitOf[alarm] == o;
    assert MembersOf(q, o) == s.members[o];
  }
}
