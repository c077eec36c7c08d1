/**
 The replay of a recorded stream, `group` in `eval/synth/evaluate.py`, on values.

 `parent`, the union-find, is viewed through the root of each situation id (`rep`); `ReplayObject`
 proves that the path-halving `find` implements that view. `unions` is a history variable: the
 merges performed so far, oldest first.
 */
module Replay {
  import opened Wrappers
  import opened Grouping

  const IDLE_CLOSE_S: real := 3600.0
  const IDLE_SWEEP_S: real := 60.0

  datatype Activation = Activation(alarm: int, ts: real, incident: string, family: string,
                                   clear: bool, candidates: seq<int>)

  /** A clear, or an activation with the evidence the decider gave its candidates. */
  datatype Op = Cleared(alarm: int, at: real) | Raised(act: Activation, scored: seq<Scored>)

  /** The activations of a stream, in order. */
  function Activations(ops: seq<Op>): seq<Activation> {
    if ops == [] then []
    else
      var last := ops[|ops| - 1];
      Activations(ops[..|ops| - 1]) + if last.Raised? then [last.act] else []
  }

  datatype Compared = Compared(a: nat, b: nat, same: bool)

  datatype State = State(
    sitOf: map<int, int>,
    members: map<int, set<int>>,
    touched: map<int, real>,
    clearedSince: map<int, real>,
    active: map<int, bool>,
    rep: map<int, int>,
    latest: map<int, nat>,
    actSid: seq<int>,
    nextSid: int,
    nextSweep: Option<real>,
    joins: nat,
    acts: seq<Activation>,
    compared: seq<Compared>,
    unions: seq<(int, int)>)

  const START := State(map[], map[], map[], map[], map[], map[], map[], [], 1, None, 0, [], [], [])

  // ---------- the step ----------

  predicate Active(active: map<int, bool>, alarm: int) {
    alarm in active && active[alarm]
  }

  function MembersOf(s: State, sid: int): set<int> {
    if sid in s.members then s.members[sid] else {}
  }

  /** No member of the situation is active. */
  predicate Quiet(s: State, sid: int) {
    forall m :: m in MembersOf(s, sid) ==> !Active(s.active, m)
  }

  function AlarmsIn(s: State, dead: set<int>): set<int> {
    set sid, m | sid in dead && sid in s.members && m in s.members[sid] :: m
  }

  /** `close` of every situation of `dead`. */
  function CloseAll(s: State, dead: set<int>): State {
    s.(sitOf := s.sitOf - AlarmsIn(s, dead),
       members := s.members - dead,
       touched := s.touched - dead,
       clearedSince := s.clearedSince - dead)
  }

  function Expired(s: State, ts: real, hold: real): set<int> {
    set sid | sid in s.clearedSince && ts - s.clearedSince[sid] >= hold
  }

  predicate SweepDue(s: State, ts: real) {
    s.nextSweep.None? || ts >= s.nextSweep.value
  }

  function Idle(s: State, ts: real): set<int> {
    if SweepDue(s, ts)
    then set sid | sid in s.touched && ts - s.touched[sid] > IDLE_CLOSE_S && Quiet(s, sid)
    else {}
  }

  /** What a clear closes. */
  function ClearCloses(s: State, alarm: int, hold: real): set<int> {
    if alarm in s.sitOf && hold <= 0.0
       && Quiet(s.(active := s.active[alarm := false]), s.sitOf[alarm])
    then {s.sitOf[alarm]} else {}
  }

  function ClearStep(s: State, alarm: int, at: real, hold: real): State {
    var quieter := s.(active := s.active[alarm := false]);
    if alarm in s.sitOf && Quiet(quieter, s.sitOf[alarm]) then
      if hold <= 0.0 then CloseAll(quieter, {s.sitOf[alarm]})
      else quieter.(clearedSince := s.clearedSince[s.sitOf[alarm] := at])
    else quieter
  }

  function ExpireStep(s: State, ts: real, hold: real): State {
    CloseAll(s, Expired(s, ts, hold))
  }

  function SweepStep(s: State, ts: real): State {
    var swept := CloseAll(s, Idle(s, ts));
    if SweepDue(s, ts) then swept.(nextSweep := Some(ts + IDLE_SWEEP_S)) else swept
  }

  /** The state an activation is placed in: expired holds and idle situations are closed. */
  function Prepare(s: State, ts: real, hold: real): State {
    SweepStep(ExpireStep(s, ts, hold), ts)
  }

  function Root(rep: map<int, int>, x: int): int {
    if x in rep then rep[x] else x
  }

  /** Every id whose root was `x`'s root has `y`'s root from now on. */
  function Union(rep: map<int, int>, x: int, y: int): map<int, int> {
    map z | z in rep :: if rep[z] == Root(rep, x) then Root(rep, y) else rep[z]
  }

  /** Each of the alarms, placed in the one situation. */
  function Onto(alarms: set<int>, sid: int): map<int, int> {
    map a | a in alarms :: sid
  }

  function Absorb(s: State, sid: int, other: int): State {
    if other == sid || other !in s.members then s
    else
      s.(rep := Union(s.rep, other, sid),
         sitOf := s.sitOf + Onto(s.members[other], sid),
         members := (s.members - {other})[sid := MembersOf(s, sid) + s.members[other]],
         touched := s.touched - {other},
         unions := s.unions + [(other, sid)])
  }

  function AbsorbAll(s: State, sid: int, merge: seq<int>): State {
    if merge == [] then s
    else Absorb(AbsorbAll(s, sid, merge[..|merge| - 1]), sid, merge[|merge| - 1])
  }

  /** The placement names a live situation to join. */
  predicate Joins(s: State, p: Placement) {
    p.join.Some? && p.join.value in s.members
  }

  /** The situation an activation lands in. */
  function Target(s: State, p: Placement): int {
    if Joins(s, p) then p.join.value else s.nextSid
  }

  /** The landing situation exists: joined, or opened with a fresh id. */
  function Open(s: State, alarm: int, p: Placement): State {
    var joins := Joins(s, p);
    s.(joins := if joins && Get(s.sitOf, alarm) != p.join then s.joins + 1 else s.joins,
       members := if joins then s.members else s.members[s.nextSid := {}],
       rep := if joins then s.rep else s.rep[s.nextSid := s.nextSid],
       nextSid := if joins then s.nextSid else s.nextSid + 1)
  }

  function Comparisons(acts: seq<Activation>, latest: map<int, nat>, incident: string,
                       candidates: seq<int>): seq<Compared>
  {
    if candidates == [] then []
    else
      var before := Comparisons(acts, latest, incident, candidates[..|candidates| - 1]);
      var other := candidates[|candidates| - 1];
      if other in latest && latest[other] < |acts|
      then before + [Compared(|acts|, latest[other], acts[latest[other]].incident == incident)]
      else before
  }

  /** The alarm takes its place in situation `sid` and the activation is recorded. */
  function Land(s: State, act: Activation, sid: int): State {
    s.(sitOf := s.sitOf[act.alarm := sid],
       members := s.members[sid := MembersOf(s, sid) + {act.alarm}],
       touched := s.touched[sid := act.ts],
       clearedSince := s.clearedSince - {sid},
       active := s.active[act.alarm := true],
       actSid := s.actSid + [sid],
       latest := s.latest[act.alarm := |s.actSid|],
       compared := s.compared + Comparisons(s.acts, s.latest, act.incident, act.candidates),
       acts := s.acts + [act])
  }

  function PlaceStep(s: State, act: Activation, p: Placement): State {
    var sid := Target(s, p);
    Land(AbsorbAll(Open(s, act.alarm, p), sid, p.merge), act, sid)
  }

  // ---------- the invariant ----------

  /** `sit_of` and `members` are inverse to each other, so live situations are disjoint. */
  ghost predicate Inverse(sitOf: map<int, int>, members: map<int, set<int>>) {
    && (forall a :: a in sitOf ==> sitOf[a] in members && a in members[sitOf[a]])
    && (forall sid, a :: sid in members && a in members[sid] ==> a in sitOf && sitOf[a] == sid)
  }

  /** Following the roots of `rep` is settled after one step. */
  ghost predicate Forest(rep: map<int, int>) {
    forall x :: x in rep ==> rep[x] in rep && rep[rep[x]] == rep[x]
  }

  /** The ids handed out are 1, 2, ..., and every live id is its own root. */
  ghost predicate Rooted(rep: map<int, int>, live: set<int>, nextSid: int) {
    && nextSid >= 1
    && (forall x :: x in rep <==> 1 <= x < nextSid)
    && Forest(rep)
    && (forall sid :: sid in live ==> sid in rep && rep[sid] == sid)
  }

  /** Activations are recorded in step, and `latest` names each alarm's own. */
  ghost predicate Recorded(s: State) {
    && |s.acts| == |s.actSid|
    && (forall i :: 0 <= i < |s.actSid| ==> s.actSid[i] in s.rep)
    && (forall a :: a in s.latest ==> s.latest[a] < |s.actSid| && s.acts[s.latest[a]].alarm == a)
    && (forall a :: a in s.sitOf ==> a in s.latest)
  }

  /** A placed alarm's latest activation was given a situation whose root is where the alarm is. */
  ghost predicate Followed(s: State)
    requires Recorded(s)
  {
    forall a :: a in s.sitOf ==> s.rep[s.actSid[s.latest[a]]] == s.sitOf[a]
  }

  /** Every active alarm is in a live situation, and a live situation marked as cleared - other than
      `except`, while activations are folded into it - holds none. */
  ghost predicate Burning(s: State, except: Option<int>) {
    && (forall a :: Active(s.active, a) ==> a in s.sitOf)
    && (forall o :: o in s.clearedSince && o in s.members && Some(o) != except ==> Quiet(s, o))
    && (forall o :: o in s.clearedSince ==> o < s.nextSid)
  }

  /** Every compared pair is two recorded activations, newer first, with the right verdict. */
  ghost predicate Judged(s: State) {
    forall c :: c in s.compared ==>
      c.b < c.a < |s.acts| && (c.same <==> s.acts[c.b].incident == s.acts[c.a].incident)
  }

  ghost predicate InvFolding(s: State, except: Option<int>) {
    && Inverse(s.sitOf, s.members) && Rooted(s.rep, s.members.Keys, s.nextSid)
    && Recorded(s) && Followed(s) && Burning(s, except) && Judged(s)
  }

  ghost predicate Inv(s: State) {
    InvFolding(s, None) && s.touched.Keys == s.members.Keys
  }

  /** Closing touches no record: not the roots, not what the activations were given or compared. */
  ghost predicate SameRecords(s: State, t: State) {
    && t.rep == s.rep && t.actSid == s.actSid && t.latest == s.latest && t.unions == s.unions
    && t.acts == s.acts && t.joins == s.joins && t.nextSid == s.nextSid && t.compared == s.compared
  }

  lemma CloseRecords(s: State, dead: set<int>)
    ensures SameRecords(s, CloseAll(s, dead)) && CloseAll(s, dead).members.Keys == s.members.Keys - dead
  {
    hide AlarmsIn;
  }

  lemma ClearRecords(s: State, alarm: int, at: real, hold: real)
    ensures var t := ClearStep(s, alarm, at, hold);
            SameRecords(s, t) && t.members.Keys == s.members.Keys - ClearCloses(s, alarm, hold)
  {
    hide Quiet, AlarmsIn;
    var quieter := s.(active := s.active[alarm := false]);
    if alarm in s.sitOf && Quiet(quieter, s.sitOf[alarm]) {
      assert hold <= 0.0 ==> CloseAll(quieter, {s.sitOf[alarm]}).members == s.members - {s.sitOf[alarm]};
    }
  }

  lemma PrepareRecords(s: State, ts: real, hold: real)
    ensures var t := Prepare(s, ts, hold);
            && SameRecords(s, t)
            && t.members.Keys == s.members.Keys - Expired(s, ts, hold) - Idle(ExpireStep(s, ts, hold), ts)
  {
    hide CloseAll, Expired, Idle;
    var expired := ExpireStep(s, ts, hold);
    CloseRecords(s, Expired(s, ts, hold));
    CloseRecords(expired, Idle(expired, ts));
  }

  // ---------- closing keeps the invariant ----------

  lemma CloseSits(s: State, dead: set<int>)
    requires Inverse(s.sitOf, s.members)
    ensures forall a :: a in CloseAll(s, dead).sitOf <==> a in s.sitOf && s.sitOf[a] !in dead
    ensures Inverse(CloseAll(s, dead).sitOf, CloseAll(s, dead).members)
  {
    var t := CloseAll(s, dead);
    forall a
      ensures a in t.sitOf <==> a in s.sitOf && s.sitOf[a] !in dead
    {
      if a in AlarmsIn(s, dead) {
        var sid :| sid in dead && sid in s.members && a in s.members[sid];
      }
      if a in s.sitOf && s.sitOf[a] in dead {
        var sid := s.sitOf[a];
        assert sid in dead && sid in s.members && a in s.members[sid];
        assert a in AlarmsIn(s, dead);
      }
    }
  }

  lemma QuietUntouched(s: State, t: State, sid: int)
    requires MembersOf(t, sid) <= MembersOf(s, sid) && Quiet(s, sid)
    requires forall a :: a in MembersOf(s, sid) && Active(t.active, a) ==> Active(s.active, a)
    ensures Quiet(t, sid)
  {
  }

  /** Closing situations keeps the invariant as long as none of them holds an active alarm. */
  lemma CloseKeeps(s: State, dead: set<int>)
    requires Inv(s)
    requires forall sid :: sid in dead && sid in s.members ==> Quiet(s, sid)
    ensures Inv(CloseAll(s, dead))
  {
    var t := CloseAll(s, dead);
    CloseSits(s, dead);
    assert Followed(t);
    forall a | Active(t.active, a)
      ensures a in t.sitOf
    {
      assert a in MembersOf(s, s.sitOf[a]);
    }
    forall sid | sid in t.clearedSince && sid in t.members
      ensures Quiet(t, sid)
    {
      QuietUntouched(s, t, sid);
    }
  }

  /** None of the three closing paths ever closes a situation that holds an active alarm. */
  lemma ClosingIsQuiet(s: State, sid: int, alarm: int, ts: real, hold: real)
    requires Inv(s)
    ensures sid in Expired(s, ts, hold) && sid in s.members ==> Quiet(s, sid)
    ensures sid in Idle(s, ts) ==> sid in s.members && Quiet(s, sid)
    ensures sid in ClearCloses(s, alarm, hold) ==>
              sid in s.members && forall m :: m in s.members[sid] && m != alarm ==> !Active(s.active, m)
  {
    if sid in ClearCloses(s, alarm, hold) {
      var quieter := s.(active := s.active[alarm := false]);
      forall m | m in s.members[sid] && m != alarm
        ensures !Active(s.active, m)
      {
        assert m in MembersOf(quieter, sid);
        assert !Active(quieter.active, m);
      }
    }
  }

  lemma QuieterKeeps(s: State, alarm: int)
    requires Inv(s)
    ensures Inv(s.(active := s.active[alarm := false]))
  {
    var t := s.(active := s.active[alarm := false]);
    forall sid | sid in t.clearedSince && sid in t.members
      ensures Quiet(t, sid)
    {
      QuietUntouched(s, t, sid);
    }
    assert forall a :: Active(t.active, a) ==> Active(s.active, a);
    assert Recorded(t);
  }

  lemma ClearKeeps(s: State, alarm: int, at: real, hold: real)
    requires Inv(s)
    ensures Inv(ClearStep(s, alarm, at, hold))
  {
    QuieterKeeps(s, alarm);
    var quieter := s.(active := s.active[alarm := false]);
    if alarm in s.sitOf && Quiet(quieter, s.sitOf[alarm]) {
      if hold <= 0.0 {
        CloseKeeps(quieter, {s.sitOf[alarm]});
      } else {
        var t := ClearStep(s, alarm, at, hold);
        forall sid | sid in t.clearedSince && sid in t.members
          ensures Quiet(t, sid)
        {
          assert Quiet(quieter, sid);
          QuietUntouched(quieter, t, sid);
        }
        assert Recorded(t) && Followed(t);
      }
    }
  }

  lemma ExpireKeeps(s: State, ts: real, hold: real)
    requires Inv(s)
    ensures Inv(ExpireStep(s, ts, hold))
  {
    forall sid | sid in Expired(s, ts, hold) && sid in s.members
      ensures Quiet(s, sid)
    {
      ClosingIsQuiet(s, sid, 0, ts, hold);
    }
    CloseKeeps(s, Expired(s, ts, hold));
  }

  lemma PrepareKeeps(s: State, ts: real, hold: real)
    requires Inv(s)
    ensures Inv(Prepare(s, ts, hold))
  {
    ExpireKeeps(s, ts, hold);
    var t := ExpireStep(s, ts, hold);
    CloseKeeps(t, Idle(t, ts));
    NextSweepIsFree(CloseAll(t, Idle(t, ts)), Some(ts + IDLE_SWEEP_S));
  }

  lemma NextSweepIsFree(s: State, at: Option<real>)
    requires Inv(s)
    ensures Inv(s.(nextSweep := at))
  {
    var t := s.(nextSweep := at);
    forall sid | sid in t.clearedSince && sid in t.members
      ensures Quiet(t, sid)
    {
      QuietUntouched(s, t, sid);
    }
    assert Recorded(t) && Followed(t);
  }

  // ---------- placing keeps the invariant ----------

  lemma UnionForest(rep: map<int, int>, x: int, y: int)
    requires x in rep && y in rep && Forest(rep)
    ensures Union(rep, x, y).Keys == rep.Keys && Forest(Union(rep, x, y))
  {
    var r := Union(rep, x, y);
    forall z | z in r
      ensures r[z] in r && r[r[z]] == r[z]
    {
      assert r[z] == if rep[z] == rep[x] then rep[y] else rep[z];
    }
  }

  lemma UnionRooted(rep: map<int, int>, live: set<int>, nextSid: int, other: int, sid: int)
    requires Rooted(rep, live, nextSid) && sid in live && other in live && other != sid
    ensures Rooted(Union(rep, other, sid), live - {other}, nextSid)
  {
    var r := Union(rep, other, sid);
    UnionForest(rep, other, sid);
    forall o | o in live - {other}
      ensures o in r && r[o] == o
    {
      assert rep[o] == o && rep[other] == other;
    }
  }

  lemma OpenRooted(rep: map<int, int>, live: set<int>, nextSid: int)
    requires Rooted(rep, live, nextSid)
    ensures Rooted(rep[nextSid := nextSid], live + {nextSid}, nextSid + 1)
  {
  }

  lemma OpenInverse(sitOf: map<int, int>, members: map<int, set<int>>, sid: int)
    requires Inverse(sitOf, members) && sid !in members
    ensures Inverse(sitOf, members[sid := {}])
  {
  }

  lemma OpenFollowed(s: State, alarm: int, p: Placement)
    requires Inv(s)
    ensures Recorded(Open(s, alarm, p)) && Followed(Open(s, alarm, p))
  {
  }

  lemma BurningElsewhere(s: State, t: State, except: int)
    requires Burning(s, None) && t.active == s.active && t.sitOf == s.sitOf
    requires t.clearedSince == s.clearedSince && t.nextSid >= s.nextSid
    requires forall o :: o in t.members && o != except ==> o in s.members && t.members[o] == s.members[o]
    ensures Burning(t, Some(except))
  {
    forall o | o in t.clearedSince && o in t.members && o != except
      ensures Quiet(t, o)
    {
      QuietUntouched(s, t, o);
    }
  }

  lemma OpenBurning(s: State, alarm: int, p: Placement)
    requires Burning(s, None)
    ensures Burning(Open(s, alarm, p), Some(Target(s, p)))
  {
    hide Burning, Quiet, Active;
    BurningElsewhere(s, Open(s, alarm, p), Target(s, p));
  }

  lemma OpenKeeps(s: State, alarm: int, p: Placement)
    requires Inv(s)
    ensures InvFolding(Open(s, alarm, p), Some(Target(s, p)))
    ensures Open(s, alarm, p).sitOf == s.sitOf && Open(s, alarm, p).touched == s.touched
    ensures Open(s, alarm, p).members.Keys == s.members.Keys + {Target(s, p)}
  {
    assert s.nextSid !in s.members;
    hide Inverse, Rooted, Recorded, Followed, Burning;
    OpenFollowed(s, alarm, p);
    OpenBurning(s, alarm, p);
    if !Joins(s, p) {
      OpenRooted(s.rep, s.members.Keys, s.nextSid);
      OpenInverse(s.sitOf, s.members, s.nextSid);
      assert Open(s, alarm, p).members.Keys == s.members.Keys + {s.nextSid};
    }
  }

  lemma AbsorbSits(s: State, sid: int, other: int)
    requires Inverse(s.sitOf, s.members) && sid in s.members
    ensures var t := Absorb(s, sid, other);
            && t.sitOf.Keys == s.sitOf.Keys
            && (forall a :: a in s.sitOf ==> t.sitOf[a] == if s.sitOf[a] == other then sid else s.sitOf[a])
            && t.members.Keys == (if other == sid then s.members.Keys else s.members.Keys - {other})
  {
    var t := Absorb(s, sid, other);
    if other != sid && other in s.members {
      forall a
        ensures a in t.sitOf <==> a in s.sitOf
      {
        if a in s.members[other] {
          assert a in s.sitOf;
        }
      }
    }
  }

  lemma AbsorbInverse(s: State, sid: int, other: int)
    requires Inverse(s.sitOf, s.members) && sid in s.members
    ensures Inverse(Absorb(s, sid, other).sitOf, Absorb(s, sid, other).members)
  {
    var t := Absorb(s, sid, other);
    AbsorbSits(s, sid, other);
    if other != sid && other in s.members {
      var members := t.members;
      assert members[sid] == s.members[sid] + s.members[other];
      assert forall o :: o in members && o != sid ==> o in s.members && o != other && members[o] == s.members[o];
      hide Absorb;
      forall o, a | o in members && a in members[o]
        ensures a in t.sitOf && t.sitOf[a] == o
      {
      }
    }
  }

  lemma AbsorbFollowed(s: State, sid: int, other: int)
    requires Inverse(s.sitOf, s.members) && Rooted(s.rep, s.members.Keys, s.nextSid)
    requires Recorded(s) && Followed(s) && sid in s.members
    ensures Recorded(Absorb(s, sid, other)) && Followed(Absorb(s, sid, other))
  {
    var t := Absorb(s, sid, other);
    AbsorbSits(s, sid, other);
    if other != sid && other in s.members {
      forall a | a in t.sitOf
        ensures t.rep[t.actSid[t.latest[a]]] == t.sitOf[a]
      {
        assert s.rep[s.actSid[s.latest[a]]] == s.sitOf[a];
      }
    }
  }

  lemma AbsorbKeeps(s: State, sid: int, other: int)
    requires InvFolding(s, Some(sid)) && sid in s.members
    ensures InvFolding(Absorb(s, sid, other), Some(sid))
  {
    var t := Absorb(s, sid, other);
    AbsorbSits(s, sid, other);
    AbsorbInverse(s, sid, other);
    AbsorbFollowed(s, sid, other);
    if other != sid && other in s.members {
      UnionRooted(s.rep, s.members.Keys, s.nextSid, other, sid);
      assert t.members.Keys == s.members.Keys - {other};
    }
    forall o | o in t.clearedSince && o in t.members && o != sid
      ensures Quiet(t, o)
    {
      QuietUntouched(s, t, o);
    }
  }

  lemma AbsorbAllFrame(s: State, sid: int, merge: seq<int>)
    ensures var t := AbsorbAll(s, sid, merge);
            && t.actSid == s.actSid && t.latest == s.latest && t.nextSid == s.nextSid && t.acts == s.acts
  {
  }

  lemma AbsorbOne(s: State, sid: int, other: int)
    requires InvFolding(s, Some(sid)) && sid in s.members && s.members.Keys == s.touched.Keys + {sid}
    ensures var t := Absorb(s, sid, other);
            && InvFolding(t, Some(sid))
            && t.sitOf.Keys == s.sitOf.Keys
            && (forall a :: a in s.sitOf ==> t.sitOf[a] == if s.sitOf[a] == other then sid else s.sitOf[a])
            && t.members.Keys == (if other == sid then s.members.Keys else s.members.Keys - {other})
            && t.members.Keys == t.touched.Keys + {sid}
  {
    hide Inverse, Rooted, Recorded, Followed, Burning, Judged, Absorb;
    AbsorbKeeps(s, sid, other);
    AbsorbSits(s, sid, other);
    AbsorbTouched(s, sid, other);
  }

  lemma {:induction false} AbsorbAllKeeps(s: State, sid: int, merge: seq<int>)
    requires InvFolding(s, Some(sid)) && sid in s.members
    requires s.members.Keys == s.touched.Keys + {sid}
    ensures var t := AbsorbAll(s, sid, merge);
            && InvFolding(t, Some(sid))
            && t.sitOf.Keys == s.sitOf.Keys
            && (forall a :: a in s.sitOf ==> t.sitOf[a] == if s.sitOf[a] in merge then sid else s.sitOf[a])
            && t.members.Keys == s.members.Keys - (set m | m in merge && m != sid)
            && t.members.Keys == t.touched.Keys + {sid}
  {
    hide InvFolding, Absorb;
    if merge != [] {
      var shorter := merge[..|merge| - 1];
      var other := merge[|merge| - 1];
      AbsorbAllKeeps(s, sid, shorter);
      AbsorbOne(AbsorbAll(s, sid, shorter), sid, other);
      assert merge == shorter + [other];
    }
  }

  lemma AbsorbTouched(s: State, sid: int, other: int)
    requires sid in s.members && s.members.Keys == s.touched.Keys + {sid}
    ensures Absorb(s, sid, other).members.Keys == Absorb(s, sid, other).touched.Keys + {sid}
  {
  }

  lemma ComparisonsMeet(acts: seq<Activation>, latest: map<int, nat>, incident: string, candidates: seq<int>)
    ensures forall c :: c in Comparisons(acts, latest, incident, candidates) ==>
              c.a == |acts| && c.b < |acts| && (c.same <==> acts[c.b].incident == incident)
  {
    if candidates != [] {
      ComparisonsMeet(acts, latest, incident, candidates[..|candidates| - 1]);
    }
  }

  lemma LandJudged(s: State, act: Activation, sid: int)
    requires Judged(s)
    ensures Judged(Land(s, act, sid))
  {
    var t := Land(s, act, sid);
    ComparisonsMeet(s.acts, s.latest, act.incident, act.candidates);
    forall c | c in t.compared
      ensures c.b < c.a < |t.acts| && (c.same <==> t.acts[c.b].incident == t.acts[c.a].incident)
    {
      if c !in s.compared {
        assert c in Comparisons(s.acts, s.latest, act.incident, act.candidates);
      }
    }
  }

  lemma LandPlaces(s: State, act: Activation, sid: int)
    requires InvFolding(s, Some(sid)) && sid in s.members
    requires act.alarm in s.sitOf ==> s.sitOf[act.alarm] == sid
    ensures var t := Land(s, act, sid);
            && Inverse(t.sitOf, t.members) && Rooted(t.rep, t.members.Keys, t.nextSid)
            && Recorded(t) && Followed(t)
            && t.members.Keys == s.members.Keys && t.touched.Keys == s.touched.Keys + {sid}
    ensures forall o :: o in s.members && o != sid ==> act.alarm !in s.members[o]
  {
    hide Inverse, Rooted, Recorded, Followed, Burning, Judged;
    LandInverse(s, act, sid);
    LandFollowed(s, act, sid);
    assert Land(s, act, sid).members.Keys == s.members.Keys;
  }

  lemma LandInverse(s: State, act: Activation, sid: int)
    requires Inverse(s.sitOf, s.members) && sid in s.members
    requires act.alarm in s.sitOf ==> s.sitOf[act.alarm] == sid
    ensures Inverse(Land(s, act, sid).sitOf, Land(s, act, sid).members)
    ensures forall o :: o in s.members && o != sid ==> act.alarm !in s.members[o]
  {
    hide Comparisons;
  }

  lemma LandFollowed(s: State, act: Activation, sid: int)
    requires Inverse(s.sitOf, s.members) && Recorded(s) && Followed(s)
    requires Rooted(s.rep, s.members.Keys, s.nextSid) && sid in s.members
    ensures Recorded(Land(s, act, sid)) && Followed(Land(s, act, sid))
  {
    hide Comparisons, Inverse;
  }

  lemma LandKeeps(s: State, act: Activation, sid: int)
    requires InvFolding(s, Some(sid)) && sid in s.members
    requires s.members.Keys == s.touched.Keys + {sid}
    requires act.alarm in s.sitOf ==> s.sitOf[act.alarm] == sid
    ensures Inv(Land(s, act, sid))
  {
    var t := Land(s, act, sid);
    LandJudged(s, act, sid);
    LandPlaces(s, act, sid);
    hide Inverse, Rooted, Recorded, Followed, Judged;
    forall o | o in t.clearedSince && o in t.members
      ensures Quiet(t, o)
    {
      assert act.alarm !in MembersOf(s, o);
      QuietUntouched(s, t, o);
    }
    assert forall a :: Active(t.active, a) ==> a == act.alarm || Active(s.active, a);
  }

  /** All that is asked of a grouper: the situation of an alarm already placed is the one the answer lands
      in, or one that it folds. */
  predicate Moves(s: State, alarm: int, p: Placement) {
    alarm in s.sitOf ==> s.sitOf[alarm] == Target(s, p) || s.sitOf[alarm] in p.merge
  }

  lemma PlaceKeeps(s: State, act: Activation, p: Placement)
    requires Inv(s) && Moves(s, act.alarm, p)
    ensures Inv(PlaceStep(s, act, p))
  {
    var sid := Target(s, p);
    var landing := Open(s, act.alarm, p);
    OpenKeeps(s, act.alarm, p);
    AbsorbAllKeeps(landing, sid, p.merge);
    LandKeeps(AbsorbAll(landing, sid, p.merge), act, sid);
  }

  /** Whatever else a grouper answers - stale or repeated ids, merges without a join - the invariant
      survives exactly when it does that much: otherwise the alarm is left behind in its old situation. */
  lemma PlaceKeepsExactly(s: State, act: Activation, p: Placement)
    requires Inv(s)
    ensures Inv(PlaceStep(s, act, p)) <==> Moves(s, act.alarm, p)
  {
    if Moves(s, act.alarm, p) {
      PlaceKeeps(s, act, p);
    } else {
      var sid := Target(s, p);
      var landing := Open(s, act.alarm, p);
      OpenKeeps(s, act.alarm, p);
      AbsorbAllKeeps(landing, sid, p.merge);
      LeftBehind(AbsorbAll(landing, sid, p.merge), act, sid);
    }
  }

  lemma LeftBehind(s: State, act: Activation, sid: int)
    requires Inverse(s.sitOf, s.members) && act.alarm in s.sitOf && s.sitOf[act.alarm] != sid
    ensures !Inverse(Land(s, act, sid).sitOf, Land(s, act, sid).members)
  {
    var t, former := Land(s, act, sid), s.sitOf[act.alarm];
    assert former in t.members && act.alarm in t.members[former] && t.sitOf[act.alarm] == sid;
  }

  /** A grouper that answers as the appliance's does asks no more. */
  lemma AnswersMove(s: State, alarm: int, p: Placement)
    requires Inv(s) && Answers(p, s.sitOf, Get(s.sitOf, alarm))
    ensures Moves(s, alarm, p)
  {
  }

  // ---------- whole runs, under any grouper that keeps its contract ----------

  datatype Event = Event(op: Op, placement: Placement)

  function OpsOf(es: seq<Event>): seq<Op> {
    seq(|es|, i requires 0 <= i < |es| => es[i].op)
  }

  function Step(s: State, e: Event, hold: real): State {
    match e.op
    case Cleared(alarm, at) => ClearStep(s, alarm, at, hold)
    case Raised(act, _) => PlaceStep(Prepare(s, act.ts, hold), act, e.placement)
  }

  /** The grouper answered this event as its contract says. */
  ghost predicate Answered(s: State, e: Event, hold: real) {
    e.op.Raised? ==>
      Moves(Prepare(s, e.op.act.ts, hold), e.op.act.alarm, e.placement)
  }

  function Run(s: State, es: seq<Event>, hold: real): State {
    if es == [] then s else Step(Run(s, es[..|es| - 1], hold), es[|es| - 1], hold)
  }

  ghost predicate AnsweredAll(s: State, es: seq<Event>, hold: real) {
    es == [] ||
    (AnsweredAll(s, es[..|es| - 1], hold) && Answered(Run(s, es[..|es| - 1], hold), es[|es| - 1], hold))
  }

  lemma StepKeeps(s: State, e: Event, hold: real)
    requires Inv(s) && Answered(s, e, hold)
    ensures Inv(Step(s, e, hold))
  {
    match e.op
    case Cleared(alarm, at) => ClearKeeps(s, alarm, at, hold);
    case Raised(act, _) =>
      PrepareKeeps(s, act.ts, hold);
      PlaceKeeps(Prepare(s, act.ts, hold), act, e.placement);
  }

  /** Every state of every run satisfies the invariant, whatever the stream and the grouper. */
  lemma {:induction false} RunKeeps(s: State, es: seq<Event>, hold: real)
    requires Inv(s) && AnsweredAll(s, es, hold)
    ensures Inv(Run(s, es, hold))
  {
    if es != [] {
      RunKeeps(s, es[..|es| - 1], hold);
      StepKeeps(Run(s, es[..|es| - 1], hold), es[|es| - 1], hold);
    }
  }

  lemma StartHolds()
    ensures Inv(START)
  {
  }

  // ---------- what a run records ----------

  /** The last activation of an alarm, if it has one. */
  function LastOf(acts: seq<Activation>, alarm: int): Option<nat> {
    if acts == [] then None
    else if acts[|acts| - 1].alarm == alarm then Some(|acts| - 1)
    else LastOf(acts[..|acts| - 1], alarm)
  }

  /** An activation against the latest earlier activation of each of its candidates that has one. */
  function Against(acts: seq<Activation>, incident: string, candidates: seq<int>): seq<Compared> {
    if candidates == [] then []
    else
      var before := Against(acts, incident, candidates[..|candidates| - 1]);
      var last := LastOf(acts, candidates[|candidates| - 1]);
      if last == None || last.value >= |acts| then before
      else before + [Compared(|acts|, last.value, acts[last.value].incident == incident)]
  }

  /** All pairs a recorded sequence of activations compares. */
  function Paired(acts: seq<Activation>): seq<Compared> {
    if acts == [] then []
    else
      var act, before := acts[|acts| - 1], acts[..|acts| - 1];
      Paired(before) + Against(before, act.incident, act.candidates)
  }

  /** `latest` and `compared` follow the activations. */
  ghost predicate Compares(s: State) {
    && (forall a :: Get(s.latest, a) == LastOf(s.acts, a))
    && s.compared == Paired(s.acts) && |s.acts| == |s.actSid|
  }

  lemma {:induction false} ComparisonsAgainst(acts: seq<Activation>, latest: map<int, nat>, incident: string,
                                              candidates: seq<int>)
    requires forall a :: Get(latest, a) == LastOf(acts, a)
    ensures Comparisons(acts, latest, incident, candidates) == Against(acts, incident, candidates)
  {
    if candidates != [] {
      ComparisonsAgainst(acts, latest, incident, candidates[..|candidates| - 1]);
      assert Get(latest, candidates[|candidates| - 1]) == LastOf(acts, candidates[|candidates| - 1]);
    }
  }

  lemma LandCompares(s: State, act: Activation, sid: int)
    requires Compares(s)
    ensures Compares(Land(s, act, sid))
  {
    var t := Land(s, act, sid);
    assert t.acts[..|t.acts| - 1] == s.acts;
    ComparisonsAgainst(s.acts, s.latest, act.incident, act.candidates);
    forall a
      ensures Get(t.latest, a) == LastOf(t.acts, a)
    {
      assert Get(s.latest, a) == LastOf(s.acts, a);
    }
  }

  lemma AbsorbAllRecords(s: State, sid: int, merge: seq<int>)
    ensures var t := AbsorbAll(s, sid, merge);
            && t.latest == s.latest && t.acts == s.acts && t.compared == s.compared && t.actSid == s.actSid
            && t.joins == s.joins && t.nextSid == s.nextSid
  {
  }

  /** An activation opens a situation, joins one it was not in, or stays: exactly one counter moves, or
      none and the alarm was already there. */
  lemma PlaceCounts(s: State, act: Activation, p: Placement)
    ensures var t := PlaceStep(s, act, p);
            && |t.acts| == |s.acts| + 1
            && (if !Joins(s, p) then t.nextSid == s.nextSid + 1 && t.joins == s.joins
                else if Get(s.sitOf, act.alarm) == Some(Target(s, p)) then t.nextSid == s.nextSid && t.joins == s.joins
                else t.nextSid == s.nextSid && t.joins == s.joins + 1)
  {
    AbsorbAllRecords(Open(s, act.alarm, p), Target(s, p), p.merge);
  }

  /** Where an activation lands: in the situation named, when that is live, and else in one of the next id; there
      its alarm then is, and every live situation named to be folded is no more, unless it is this one. */
  lemma PlaceLands(s: State, act: Activation, p: Placement)
    ensures var t, sid := PlaceStep(s, act, p),
                          if p.join.Some? && p.join.value in s.members then p.join.value else s.nextSid;
            && t.actSid == s.actSid + [sid] && t.acts == s.acts + [act]
            && act.alarm in t.sitOf && t.sitOf[act.alarm] == sid
            && sid in t.members && act.alarm in t.members[sid]
            && forall other :: other in p.merge && other != sid ==> other !in t.members
  {
    var o, sid := Open(s, act.alarm, p), Target(s, p);
    AbsorbAllRecords(o, sid, p.merge);
    AbsorbedGone(o, sid, p.merge);
  }

  lemma {:induction false} AbsorbedGone(s: State, sid: int, merge: seq<int>)
    ensures var t := AbsorbAll(s, sid, merge);
            forall other :: other in t.members && other in merge ==> other == sid
  {
    if merge != [] {
      AbsorbedGone(s, sid, merge[..|merge| - 1]);
      assert merge == merge[..|merge| - 1] + [merge[|merge| - 1]];
    }
  }

  /** Whatever the grouper answers, over every run the pairs compared are exactly each activation against
      the latest earlier one of each of its candidates, and joins and opened situations are no more than
      the activations. */
  lemma {:induction false} RunRecords(es: seq<Event>, hold: real)
    ensures Compares(Run(START, es, hold))
    ensures Run(START, es, hold).joins + Run(START, es, hold).nextSid - 1 <= |Run(START, es, hold).acts|
  {
    if es == [] {
      StartCompares();
    } else {
      hide Compares, Step;
      RunRecords(es[..|es| - 1], hold);
      StepRecords(Run(START, es[..|es| - 1], hold), es[|es| - 1], hold);
    }
  }

  /** Whatever the grouper answers, the activations recorded are those of the stream, in order. */
  lemma {:induction false} RunActivations(es: seq<Event>, hold: real)
    ensures var s := Run(START, es, hold); s.acts == Activations(OpsOf(es)) && |s.actSid| == |s.acts|
  {
    hide Step;
    if es != [] {
      var rest, last := es[..|es| - 1], es[|es| - 1];
      RunActivations(rest, hold);
      StepActivations(Run(START, rest, hold), last, hold);
      assert OpsOf(es)[..|es| - 1] == OpsOf(rest);
    }
  }

  lemma StepActivations(s: State, e: Event, hold: real)
    ensures var t := Step(s, e, hold);
            && t.acts == s.acts + (if e.op.Raised? then [e.op.act] else [])
            && |t.actSid| == |s.actSid| + if e.op.Raised? then 1 else 0
  {
    hide ClearStep, Prepare, Open, AbsorbAll, Target, Comparisons;
    match e.op
    case Cleared(alarm, at) => ClearRecords(s, alarm, at, hold);
    case Raised(act, _) =>
      var ready := Prepare(s, act.ts, hold);
      PrepareRecords(s, act.ts, hold);
      AbsorbAllFrame(Open(ready, act.alarm, e.placement), Target(ready, e.placement), e.placement.merge);
      OpenFrame(ready, act.alarm, e.placement);
  }

  lemma OpenFrame(s: State, alarm: int, p: Placement)
    ensures var t := Open(s, alarm, p); t.latest == s.latest && t.actSid == s.actSid && t.acts == s.acts
  {
  }

  lemma StartCompares()
    ensures Compares(START)
  {
  }

  lemma StepRecords(s: State, e: Event, hold: real)
    requires Compares(s)
    ensures var t := Step(s, e, hold);
            Compares(t) && t.joins + t.nextSid - s.joins - s.nextSid <= |t.acts| - |s.acts|
  {
    match e.op
    case Cleared(alarm, at) => ClearCompares(s, alarm, at, hold);
    case Raised(act, _) =>
      var ready := Prepare(s, act.ts, hold);
      PrepareCompares(s, act.ts, hold);
      PlaceCompares(ready, act, e.placement);
      PlaceCounts(ready, act, e.placement);
      hide Compares, Prepare, PlaceStep, Joins;
  }

  lemma ClearCompares(s: State, alarm: int, at: real, hold: real)
    requires Compares(s)
    ensures var t := ClearStep(s, alarm, at, hold);
            Compares(t) && t.joins == s.joins && t.nextSid == s.nextSid && t.acts == s.acts
  {
    hide ClearStep, LastOf, Paired;
    ClearRecords(s, alarm, at, hold);
  }

  lemma PrepareCompares(s: State, ts: real, hold: real)
    requires Compares(s)
    ensures var t := Prepare(s, ts, hold);
            Compares(t) && t.joins == s.joins && t.nextSid == s.nextSid && t.acts == s.acts
  {
    hide Prepare, LastOf, Paired;
    PrepareRecords(s, ts, hold);
  }

  lemma PlaceCompares(s: State, act: Activation, p: Placement)
    requires Compares(s)
    ensures Compares(PlaceStep(s, act, p))
  {
    var landing := Open(s, act.alarm, p);
    AbsorbAllRecords(landing, Target(s, p), p.merge);
    LandCompares(AbsorbAll(landing, Target(s, p), p.merge), act, Target(s, p));
  }

  // ---------- under a grouper that keeps no contract at all ----------

  /** Half of the coupling: a placed alarm is a member where it is placed. */
  ghost predicate OneWay(sitOf: map<int, int>, members: map<int, set<int>>) {
    forall a :: a in sitOf ==> sitOf[a] in members && a in members[sitOf[a]]
  }

  ghost predicate Half(s: State) {
    && OneWay(s.sitOf, s.members) && s.touched.Keys == s.members.Keys
    && forall sid :: sid in s.members ==> sid < s.nextSid
  }

  lemma ClosedWith(s: State, dead: set<int>, a: int)
    requires OneWay(s.sitOf, s.members) && a in s.sitOf && s.sitOf[a] in dead
    ensures a in AlarmsIn(s, dead)
  {
    var sid := s.sitOf[a];
    assert sid in dead && sid in s.members && a in s.members[sid];
  }

  lemma CloseHalf(s: State, dead: set<int>)
    requires Half(s)
    ensures Half(CloseAll(s, dead))
  {
    var t := CloseAll(s, dead);
    forall a | a in t.sitOf
      ensures t.sitOf[a] in t.members && a in t.members[t.sitOf[a]]
    {
      if s.sitOf[a] in dead {
        ClosedWith(s, dead, a);
      }
    }
  }

  lemma {:induction false} AbsorbAllHalf(s: State, sid: int, merge: seq<int>)
    requires OneWay(s.sitOf, s.members) && sid in s.members && s.members.Keys == s.touched.Keys + {sid}
    ensures var t := AbsorbAll(s, sid, merge);
            && OneWay(t.sitOf, t.members) && sid in t.members && t.members.Keys == t.touched.Keys + {sid}
            && t.members.Keys <= s.members.Keys && t.nextSid == s.nextSid
  {
    if merge != [] {
      AbsorbAllHalf(s, sid, merge[..|merge| - 1]);
      AbsorbHalf(AbsorbAll(s, sid, merge[..|merge| - 1]), sid, merge[|merge| - 1]);
    }
  }

  lemma AbsorbHalf(s: State, sid: int, other: int)
    requires OneWay(s.sitOf, s.members) && sid in s.members && s.members.Keys == s.touched.Keys + {sid}
    ensures var t := Absorb(s, sid, other);
            && OneWay(t.sitOf, t.members) && sid in t.members && t.members.Keys == t.touched.Keys + {sid}
            && t.members.Keys <= s.members.Keys && t.nextSid == s.nextSid
  {
    var t := Absorb(s, sid, other);
    if other != sid && other in s.members {
      forall a | a in t.sitOf
        ensures t.sitOf[a] in t.members && a in t.members[t.sitOf[a]]
      {
        if a !in s.members[other] {
          assert s.sitOf[a] != other && a in s.members[s.sitOf[a]];
        }
      }
    }
  }

  lemma PlaceHalf(s: State, act: Activation, p: Placement)
    requires Half(s)
    ensures Half(PlaceStep(s, act, p))
  {
    var sid, landing := Target(s, p), Open(s, act.alarm, p);
    assert OneWay(landing.sitOf, landing.members);
    AbsorbAllHalf(landing, sid, p.merge);
    var t := AbsorbAll(landing, sid, p.merge);
    LandHalf(t, act, sid);
  }

  lemma LandHalf(s: State, act: Activation, sid: int)
    requires OneWay(s.sitOf, s.members) && sid in s.members && s.members.Keys == s.touched.Keys + {sid}
    requires forall o :: o in s.members ==> o < s.nextSid
    ensures Half(Land(s, act, sid))
  {
  }

  /** Whatever a grouper answers, through every run: a placed alarm is a member of the situation it is
      placed in, and that situation is live. */
  lemma {:induction false} RunPlaces(es: seq<Event>, hold: real)
    ensures Half(Run(START, es, hold))
  {
    if es != [] {
      var s := Run(START, es[..|es| - 1], hold);
      RunPlaces(es[..|es| - 1], hold);
      StepHalf(s, es[|es| - 1], hold);
    }
  }

  lemma StepHalf(s: State, e: Event, hold: real)
    requires Half(s)
    ensures Half(Step(s, e, hold))
  {
    match e.op
    case Cleared(alarm, at) => ClearHalf(s, alarm, at, hold);
    case Raised(act, _) =>
      CloseHalf(s, Expired(s, act.ts, hold));
      var held := ExpireStep(s, act.ts, hold);
      CloseHalf(held, Idle(held, act.ts));
      PlaceHalf(Prepare(s, act.ts, hold), act, e.placement);
  }

  lemma ClearHalf(s: State, alarm: int, at: real, hold: real)
    requires Half(s)
    ensures Half(ClearStep(s, alarm, at, hold))
  {
    hide Quiet;
    if alarm in s.sitOf {
      CloseHalf(s.(active := s.active[alarm := false]), {s.sitOf[alarm]});
    }
  }
}
