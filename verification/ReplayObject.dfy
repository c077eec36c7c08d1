/**
 `group` as the source runs it: dictionaries reassigned in loops, a union-find whose `find` halves
 paths as it walks, and a grouper object told of every closing and every placement. Each method is
 proved against the value steps of `Replay` and `Correlation`, so what is proved of those holds of
 this loop.
 */
module ReplayObject {
  import opened Wrappers
  import opened Grouping
  import opened Replay
  import opened Partition
  import opened Correlation
  import opened GrouperObject
  import opened Outcomes

  // ---------- the union-find ----------

  /** The parent of `x` has its root and, unless `x` is that root, lies less deep. */
  ghost predicate Climbs(parent: map<int, int>, rep: map<int, int>, depth: map<int, nat>, x: int) {
    && x in parent && x in rep && x in depth
    && parent[x] in rep && parent[x] in depth && rep[parent[x]] == rep[x]
    && (parent[x] == x <==> rep[x] == x)
    && (parent[x] != x ==> depth[parent[x]] < depth[x])
  }

  /** `parent` leads every id to its root, ever closer by `depth`. */
  ghost predicate Leads(parent: map<int, int>, rep: map<int, int>, depth: map<int, nat>) {
    && parent.Keys == rep.Keys == depth.Keys
    && forall x {:trigger Climbs(parent, rep, depth, x)} :: x in rep ==> Climbs(parent, rep, depth, x)
  }

  lemma LeadsAt(parent: map<int, int>, rep: map<int, int>, depth: map<int, nat>, x: int)
    requires Leads(parent, rep, depth) && x in rep
    ensures x in parent && x in depth && (parent[x] == x <==> rep[x] == x)
    ensures parent[x] in parent && parent[parent[x]] in parent
    ensures parent[x] in rep && parent[parent[x]] in rep
    ensures rep[parent[parent[x]]] == rep[parent[x]] == rep[x]
  {
    assert Climbs(parent, rep, depth, x);
    assert Climbs(parent, rep, depth, parent[x]);
  }

  lemma HalvingLeads(parent: map<int, int>, rep: map<int, int>, depth: map<int, nat>, x: int)
    requires Leads(parent, rep, depth) && x in parent && parent[x] != x
    ensures parent[x] in parent && parent[parent[x]] in depth
    ensures Leads(parent[x := parent[parent[x]]], rep, depth)
    ensures depth[parent[parent[x]]] < depth[x]
  {
    assert Climbs(parent, rep, depth, x) && Climbs(parent, rep, depth, parent[x]);
    var halved := parent[x := parent[parent[x]]];
    forall z | z in rep
      ensures Climbs(halved, rep, depth, z)
    {
      assert Climbs(parent, rep, depth, z);
    }
  }

  /** The linked tree lies deeper than the one it is hung under. */
  function Deeper(rep: map<int, int>, depth: map<int, nat>, x: int, y: int): map<int, nat>
    requires rep.Keys == depth.Keys && x in rep && y in rep && rep[y] in rep
  {
    map z | z in depth :: if rep[z] == rep[x] then depth[z] + depth[rep[y]] + 1 else depth[z]
  }

  lemma LinkingLeads(parent: map<int, int>, rep: map<int, int>, depth: map<int, nat>, x: int, y: int)
    requires Leads(parent, rep, depth) && Forest(rep) && x in rep && y in rep && rep[x] != rep[y]
    ensures rep.Keys == depth.Keys && rep[y] in rep
    ensures Leads(parent[rep[x] := rep[y]], Union(rep, x, y), Deeper(rep, depth, x, y))
  {
    var linked, united, deeper := parent[rep[x] := rep[y]], Union(rep, x, y), Deeper(rep, depth, x, y);
    assert rep[rep[x]] == rep[x] && rep[rep[y]] == rep[y];
    hide Forest;
    assert Climbs(parent, rep, depth, rep[y]);
    forall z | z in united
      ensures Climbs(linked, united, deeper, z)
    {
      assert Climbs(parent, rep, depth, z);
    }
  }

  lemma OpeningLeads(parent: map<int, int>, rep: map<int, int>, depth: map<int, nat>, x: int)
    requires Leads(parent, rep, depth) && x !in rep
    ensures Leads(parent[x := x], rep[x := x], depth[x := 0])
  {
    var up, alone, deeper := parent[x := x], rep[x := x], depth[x := 0];
    forall z | z in alone
      ensures Climbs(up, alone, deeper, z)
    {
      assert z != x ==> Climbs(parent, rep, depth, z);
    }
  }

  // ---------- closing one by one ----------

  lemma CloseOneMore(s: State, done: set<int>, sid: int)
    requires sid !in done
    ensures CloseAll(CloseAll(s, done), {sid}) == CloseAll(s, done + {sid})
  {
    var t := CloseAll(s, done);
    assert MembersOf(t, sid) == MembersOf(s, sid);
    forall a
      ensures a in AlarmsIn(s, done) + AlarmsIn(t, {sid}) <==> a in AlarmsIn(s, done + {sid})
    {
      if a in AlarmsIn(s, done + {sid}) {
        var o :| o in done + {sid} && o in s.members && a in s.members[o];
        if o in done {
          assert a in AlarmsIn(s, done);
        } else {
          assert o in {sid} && o in t.members && a in t.members[o];
        }
      }
      if a in AlarmsIn(s, done) {
        var o :| o in done && o in s.members && a in s.members[o];
        assert o in done + {sid};
      }
      if a in AlarmsIn(t, {sid}) {
        var o :| o in {sid} && o in t.members && a in t.members[o];
        assert o in done + {sid} && a in s.members[o];
      }
    }
    assert s.sitOf - AlarmsIn(s, done) - AlarmsIn(t, {sid}) == s.sitOf - AlarmsIn(s, done + {sid});
    assert s.members - done - {sid} == s.members - (done + {sid});
    assert s.touched - done - {sid} == s.touched - (done + {sid});
    assert s.clearedSince - done - {sid} == s.clearedSince - (done + {sid});
  }

  lemma ForgetOneMore(c: Cross, done: set<int>, sid: int)
    ensures Grouping.Forget(Grouping.Forget(c, done), {sid}) == Grouping.Forget(c, done + {sid})
    ensures Grouping.Forget(c, {}) == c
  {
  }

  lemma CloseNone(s: State)
    ensures CloseAll(s, {}) == s
  {
    assert AlarmsIn(s, {}) == {};
    assert s.sitOf - {} == s.sitOf && s.members - {} == s.members;
    assert s.touched - {} == s.touched && s.clearedSince - {} == s.clearedSince;
  }

  lemma InvRoots(s: State)
    requires Inv(s)
    ensures Forest(s.rep) && forall k :: 0 <= k < |s.actSid| ==> s.actSid[k] in s.rep
  {
  }

  lemma OneSituation(s: State, sid: int)
    ensures AlarmsIn(s, {sid}) == MembersOf(s, sid)
  {
    forall a | a in MembersOf(s, sid)
      ensures a in AlarmsIn(s, {sid})
    {
      assert sid in {sid} && sid in s.members && a in s.members[sid];
    }
  }

  /** The three things a clear may do. */
  lemma ClearCases(cfg: Config, y: System, alarm: int, at: real)
    ensures var q := y.s.(active := y.s.active[alarm := false]);
            var out := alarm in y.s.sitOf && Quiet(q, y.s.sitOf[alarm]);
            Advance(cfg, y, Cleared(alarm, at)) ==
            if !out then y.(s := q)
            else if cfg.hold <= 0.0 then
              y.(s := CloseAll(q, {y.s.sitOf[alarm]}), cross := Grouping.Forget(y.cross, {y.s.sitOf[alarm]}))
            else y.(s := q.(clearedSince := q.clearedSince[y.s.sitOf[alarm] := at]))
  {
    ForgetOneMore(y.cross, {}, 0);
  }

  lemma SweepCases(s: State, ts: real)
    ensures SweepStep(s, ts) ==
            if SweepDue(s, ts) then CloseAll(s, Idle(s, ts)).(nextSweep := Some(ts + IDLE_SWEEP_S)) else s
    ensures !SweepDue(s, ts) ==> Idle(s, ts) == {}
  {
    CloseNone(s);
  }

  /** What every step of carrying out a placement finds. */
  lemma CarryReady(s: State, act: Activation, p: Placement)
    requires Inv(s)
    ensures Rooted(s.rep, s.members.Keys, s.nextSid)
    ensures var t := Open(s, act.alarm, p);
            && InvFolding(t, Some(Target(s, p))) && Target(s, p) in t.members
            && t.members.Keys == t.touched.Keys + {Target(s, p)}
    ensures var u := AbsorbAll(Open(s, act.alarm, p), Target(s, p), p.merge);
            Recorded(u) && Target(s, p) in u.members
  {
    OpenKeeps(s, act.alarm, p);
    AbsorbAllKeeps(Open(s, act.alarm, p), Target(s, p), p.merge);
    hide Rooted, Inverse, Recorded, Followed, Burning, Judged, Open, AbsorbAll, Target;
  }

  /** What folding in the next situation of a merge list finds. */
  lemma MergeReady(s: State, sid: int, merge: seq<int>, i: nat)
    requires InvFolding(s, Some(sid)) && sid in s.members && s.members.Keys == s.touched.Keys + {sid}
    requires i < |merge|
    ensures var t := AbsorbAll(s, sid, merge[..i]);
            && Rooted(t.rep, t.members.Keys, t.nextSid) && sid in t.members
            && AbsorbAll(s, sid, merge[..i + 1]) == Absorb(t, sid, merge[i])
  {
    AbsorbAllKeeps(s, sid, merge[..i]);
    assert merge[..i + 1][..i] == merge[..i];
    hide Rooted, Inverse, Recorded, Followed, Burning, Judged, Absorb;
  }

  lemma ReplayedNone(cfg: Config, ops: seq<Op>)
    ensures Replayed(cfg, ops[..0]) == BEGIN
  {
  }

  lemma ReplayedStep(cfg: Config, ops: seq<Op>, i: nat)
    requires i < |ops|
    ensures Replayed(cfg, ops[..i + 1]) == Advance(cfg, Replayed(cfg, ops[..i]), ops[i])
  {
    assert ops[..i + 1][..i] == ops[..i];
  }

  lemma OntoNone(sitOf: map<int, int>, sid: int)
    ensures sitOf + Onto({}, sid) == sitOf
  {
  }

  lemma OntoMore(sitOf: map<int, int>, done: set<int>, alarm: int, sid: int)
    ensures sitOf + Onto(done + {alarm}, sid) == (sitOf + Onto(done, sid))[alarm := sid]
  {
  }

  class Replayer {
    const cfg: Config
    const grouper: Grouper
    var sitOf: map<int, int>
    var members: map<int, set<int>>
    var touched: map<int, real>
    var clearedSince: map<int, real>
    var active: map<int, bool>
    var parent: map<int, int>
    var latest: map<int, nat>
    var actSid: seq<int>
    var nextSid: int
    var nextSweep: Option<real>
    var joins: nat
    var acts: seq<Activation>
    var compared: seq<Compared>
    ghost var rep: map<int, int>
    ghost var depth: map<int, nat>
    ghost var unions: seq<(int, int)>
    ghost var hist: seq<Noted>
    ghost var links: set<(nat, nat)>

    ghost function Abs(): State
      reads this
    {
      State(sitOf, members, touched, clearedSince, active, rep, latest, actSid, nextSid, nextSweep,
            joins, acts, compared, unions)
    }

    ghost function Sys(): System
      reads this, grouper, grouper.Accs()
    {
      System(Abs(), grouper.View(), hist, links)
    }

    ghost predicate Valid()
      reads this, grouper
    {
      && Leads(parent, rep, depth)
      && grouper.Valid() && grouper.mode == cfg.mode && grouper.params == cfg.params
    }

    constructor (cfg: Config)
      ensures Valid() && Sys() == BEGIN && this.cfg == cfg
      ensures fresh(grouper) && fresh(grouper.Accs())
    {
      this.cfg := cfg;
      grouper := new Grouper(cfg.mode, cfg.params);
      sitOf, members, touched, clearedSince := map[], map[], map[], map[];
      active, parent, latest, actSid, nextSid := map[], map[], map[], [], 1;
      nextSweep, joins, acts, compared := None, 0, [], [];
      rep, depth, unions, hist, links := map[], map[], [], [], {};
    }

    /** `find`, halving the path it walks: it answers the root and moves none. */
    method Find(x: int) returns (r: int)
      requires Leads(parent, rep, depth) && Forest(rep) && x in rep
      modifies this`parent
      ensures Leads(parent, rep, depth) && r == rep[x]
    {
      hide Leads, Shared, Forest;
      r := x;
      LeadsAt(parent, rep, depth, r);
      while parent[r] != r
        invariant Leads(parent, rep, depth) && r in parent && r in rep && x in rep && rep[r] == rep[x]
        invariant r in depth && (parent[r] == r <==> rep[r] == r) && parent[r] in parent
        decreases depth[r]
      {
        LeadsAt(parent, rep, depth, r);
        HalvingLeads(parent, rep, depth, r);
        LeadsAt(parent, rep, depth, parent[parent[r]]);
        LeadsAt(parent[r := parent[parent[r]]], rep, depth, parent[parent[r]]);
        parent := parent[r := parent[parent[r]]];
        r := parent[r];
      }
    }

    method Evict(gone: set<int>)
      modifies this`sitOf
      ensures sitOf == old(sitOf) - gone
    {
      var left := gone;
      ghost var done: set<int> := {};
      while left != {}
        invariant left + done == gone && left !! done
        invariant sitOf == old(sitOf) - done
        decreases left
      {
        ghost var _ := Member(left);
        var m :| m in left;
        sitOf := sitOf - {m};
        left, done := left - {m}, done + {m};
      }
      assert done == gone;
    }

    method Unplace(sid: int)
      modifies this`sitOf, this`members, this`touched, this`clearedSince
      ensures Abs() == CloseAll(old(Abs()), {sid})
    {
      ghost var s := Abs();
      var gone := if sid in members then members[sid] else {};
      OneSituation(s, sid);
      hide AlarmsIn;
      members := members - {sid};
      Evict(gone);
      touched := touched - {sid};
      clearedSince := clearedSince - {sid};
    }

    /** `close`. */
    method Close(sid: int)
      requires Valid()
      modifies this`sitOf, this`members, this`touched, this`clearedSince, grouper`cross
      ensures Valid() && Sys() == old(Sys()).(s := CloseAll(old(Abs()), {sid}),
                                              cross := Grouping.Forget(old(grouper.View()), {sid}))
      ensures grouper.Accs() <= old(grouper.Accs())
    {
      assert forall acc :: acc in grouper.Accs() ==> allocated(acc);
      hide Leads, Shared, CloseAll;
      ghost var v := grouper.View();
      Unplace(sid);
      assert grouper.View() == v;
      grouper.Forget(sid);
    }

    method CloseEach(dead: set<int>)
      requires Valid()
      modifies this`sitOf, this`members, this`touched, this`clearedSince, grouper`cross
      ensures Valid() && Sys() == old(Sys()).(s := CloseAll(old(Abs()), dead),
                                              cross := Grouping.Forget(old(grouper.View()), dead))
      ensures grouper.Accs() <= old(grouper.Accs())
    {
      ghost var s, v := Abs(), grouper.View();
      CloseNone(s);
      ForgetOneMore(v, {}, 0);
      hide Leads, Shared, CloseAll, Grouping.Forget, AlarmsIn, ViewOf, AccsOf;
      var left := dead;
      ghost var done: set<int> := {};
      while left != {}
        invariant left + done == dead && left !! done
        invariant Valid() && Abs() == CloseAll(s, done) && grouper.View() == Grouping.Forget(v, done)
        invariant grouper.Accs() <= old(grouper.Accs()) && hist == old(hist) && links == old(links)
        decreases left
      {
        ghost var _ := Member(left);
        var sid :| sid in left;
        CloseOneMore(s, done, sid);
        ForgetOneMore(v, done, sid);
        Close(sid);
        left, done := left - {sid}, done + {sid};
      }
      assert done == dead;
    }

    /** No member of the situation is active. */
    predicate IsQuiet(sid: int)
      reads this
    {
      forall m :: m in (if sid in members then members[sid] else {}) ==> !Active(active, m)
    }

    method Quench(alarm: int) returns (out: bool)
      modifies this`active
      ensures Abs() == old(Abs()).(active := old(active)[alarm := false])
      ensures out <==> alarm in sitOf && Quiet(Abs(), sitOf[alarm])
    {
      active := active[alarm := false];
      out := alarm in sitOf && IsQuiet(sitOf[alarm]);
    }

    /** What becomes of a situation whose last active member has cleared. */
    method Settle(sid: int, at: real)
      requires Valid()
      modifies this`sitOf, this`members, this`touched, this`clearedSince, grouper`cross
      ensures Valid()
      ensures cfg.hold <= 0.0 ==>
                Sys() == old(Sys()).(s := CloseAll(old(Abs()), {sid}),
                                     cross := Grouping.Forget(old(grouper.View()), {sid}))
      ensures cfg.hold > 0.0 ==>
                Sys() == old(Sys()).(s := old(Abs()).(clearedSince := old(clearedSince)[sid := at]))
      ensures grouper.Accs() <= old(grouper.Accs())
    {
      hide Leads, Shared, CloseAll, Grouping.Forget;
      if cfg.hold <= 0.0 {
        Close(sid);
      } else {
        ghost var v := grouper.View();
        clearedSince := clearedSince[sid := at];
        assert grouper.View() == v;
      }
    }

    /** A clear. */
    method Clear(alarm: int, at: real)
      requires Valid()
      modifies this, grouper`cross
      ensures Valid() && Sys() == Advance(cfg, old(Sys()), Cleared(alarm, at))
      ensures grouper.Accs() <= old(grouper.Accs())
    {
      assert forall acc :: acc in grouper.Accs() ==> allocated(acc);
      ghost var y := Sys();
      ClearCases(cfg, y, alarm, at);
      hide Leads, Shared, CloseAll, Grouping.Forget, ViewOf, AccsOf, Quiet, Advance;
      var out := Quench(alarm);
      assert Sys() == y.(s := y.s.(active := y.s.active[alarm := false]));
      if out {
        Settle(sitOf[alarm], at);
      }
    }

    method SweepIdle(ts: real)
      requires Valid() && touched.Keys <= members.Keys && SweepDue(Abs(), ts)
      modifies this`sitOf, this`members, this`touched, this`clearedSince, this`nextSweep, grouper`cross
      ensures Valid()
      ensures Sys() == old(Sys()).(
                s := CloseAll(old(Abs()), Idle(old(Abs()), ts)).(nextSweep := Some(ts + IDLE_SWEEP_S)),
                cross := Grouping.Forget(old(grouper.View()), Idle(old(Abs()), ts)))
      ensures grouper.Accs() <= old(grouper.Accs())
    {
      ghost var s := Abs();
      hide Leads, Shared, CloseAll, Grouping.Forget, ViewOf, AccsOf;
      var idle := set sid | sid in touched && ts - touched[sid] > IDLE_CLOSE_S && IsQuiet(sid);
      assert idle == Idle(s, ts);
      hide Quiet, Idle;
      CloseEach(idle);
      ghost var y := Sys();
      nextSweep := Some(ts + IDLE_SWEEP_S);
      assert Sys() == y.(s := y.s.(nextSweep := nextSweep));
    }

    method Sweep(ts: real)
      requires Valid() && touched.Keys <= members.Keys
      modifies this`sitOf, this`members, this`touched, this`clearedSince, this`nextSweep, grouper`cross
      ensures Valid() && Sys() == old(Sys()).(s := SweepStep(old(Abs()), ts),
                                              cross := Grouping.Forget(old(grouper.View()), Idle(old(Abs()), ts)))
      ensures grouper.Accs() <= old(grouper.Accs())
    {
      SweepCases(Abs(), ts);
      ForgetOneMore(grouper.View(), {}, 0);
      hide Leads, Shared, CloseAll, Grouping.Forget, ViewOf, AccsOf, SweepStep, Idle;
      if nextSweep.None? || ts >= nextSweep.value {
        SweepIdle(ts);
      }
    }

    /** What happens before an activation is placed: expired holds and idle situations close. */
    method Prepare(ts: real)
      requires Valid() && Inv(Abs())
      modifies this, grouper`cross
      ensures Valid() && Sys() == Ready(cfg, old(Sys()), ts) && Inv(Abs())
      ensures grouper.Accs() <= old(grouper.Accs())
    {
      ghost var s := Abs();
      PrepareKeeps(s, ts, cfg.hold);
      ExpireKeeps(s, ts, cfg.hold);
      hide Leads, Shared, CloseAll, Grouping.Forget, InvFolding, ViewOf, SweepStep, Idle;
      var expired := set sid | sid in clearedSince && ts - clearedSince[sid] >= cfg.hold;
      assert expired == Expired(s, ts, cfg.hold);
      hide Expired;
      CloseEach(expired);
      Sweep(ts);
    }

    // ---------- placing ----------

    method Move(moved: set<int>, sid: int)
      requires sid in members
      modifies this`sitOf, this`members
      ensures sitOf == old(sitOf) + Onto(moved, sid)
      ensures members == old(members)[sid := old(members)[sid] + moved]
    {
      hide Onto;
      OntoNone(sitOf, sid);
      var left := moved;
      ghost var done: set<int> := {};
      while left != {}
        invariant left + done == moved && left !! done
        invariant sitOf == old(sitOf) + Onto(done, sid)
        invariant members.Keys == old(members).Keys && members[sid] == old(members)[sid] + done
        invariant forall o :: o in members && o != sid ==> members[o] == old(members)[o]
        decreases left
      {
        ghost var _ := Member(left);
        var m :| m in left;
        OntoMore(old(sitOf), done, m, sid);
        sitOf := sitOf[m := sid];
        members := members[sid := members[sid] + {m}];
        left, done := left - {m}, done + {m};
      }
      assert done == moved;
      assert members == old(members)[sid := old(members)[sid] + moved];
    }

    /** `parent[find(other)] = find(sid)`. */
    method Link(sid: int, other: int)
      requires Leads(parent, rep, depth) && Forest(rep) && sid in rep && other in rep
      requires rep[sid] != rep[other]
      modifies this`parent, this`rep, this`depth
      ensures Leads(parent, rep, depth) && rep == Union(old(rep), other, sid)
    {
      hide Leads, Forest, Union, Deeper;
      var to := Find(sid);
      var root := Find(other);
      LinkingLeads(parent, rep, depth, other, sid);
      parent := parent[root := to];
      rep, depth := Union(rep, other, sid), Deeper(rep, depth, other, sid);
    }

    method TakeIn(sid: int, other: int)
      requires sid in members && other in members && other != sid
      modifies this`sitOf, this`members, this`touched
      ensures sitOf == old(sitOf) + Onto(old(members)[other], sid)
      ensures members == (old(members) - {other})[sid := old(members)[sid] + old(members)[other]]
      ensures touched == old(touched) - {other}
    {
      var moved := members[other];
      members := members - {other};
      Move(moved, sid);
      touched := touched - {other};
    }

    method MergeLive(sid: int, other: int)
      requires Leads(parent, rep, depth) && Rooted(rep, members.Keys, nextSid) && sid in members
      requires other in members && other != sid
      modifies this`parent, this`rep, this`depth, this`sitOf, this`members, this`touched, this`unions
      ensures Leads(parent, rep, depth) && rep == Union(old(rep), other, sid)
      ensures sitOf == old(sitOf) + Onto(old(members)[other], sid)
      ensures members == (old(members) - {other})[sid := old(members)[sid] + old(members)[other]]
      ensures touched == old(touched) - {other} && unions == old(unions) + [(other, sid)]
    {
      hide Leads, Union;
      Link(sid, other);
      TakeIn(sid, other);
      unions := unions + [(other, sid)];
    }

    /** One situation of the placement's merge list. */
    method Merge(sid: int, other: int)
      requires Leads(parent, rep, depth) && Rooted(rep, members.Keys, nextSid) && sid in members
      modifies this`parent, this`rep, this`depth, this`sitOf, this`members, this`touched, this`unions
      ensures Leads(parent, rep, depth) && Abs() == Absorb(old(Abs()), sid, other)
    {
      hide Leads, Union, Rooted;
      if other != sid && other in members {
        MergeLive(sid, other);
      }
    }

    method OpenFresh() returns (sid: int)
      requires Leads(parent, rep, depth) && Rooted(rep, members.Keys, nextSid)
      modifies this`parent, this`rep, this`depth, this`members, this`nextSid
      ensures Leads(parent, rep, depth) && sid == old(nextSid) && nextSid == sid + 1
      ensures members == old(members)[sid := {}] && rep == old(rep)[sid := sid]
    {
      sid := nextSid;
      OpeningLeads(parent, rep, depth, sid);
      hide Leads;
      nextSid := nextSid + 1;
      members := members[sid := {}];
      parent := parent[sid := sid];
      rep := rep[sid := sid];
      depth := depth[sid := 0];
    }

    /** The landing situation: the live one the placement names, or a fresh one. */
    method Enter(alarm: int, p: Placement) returns (sid: int)
      requires Leads(parent, rep, depth) && Rooted(rep, members.Keys, nextSid)
      modifies this`parent, this`rep, this`depth, this`members, this`nextSid, this`joins
      ensures Leads(parent, rep, depth)
      ensures sid == Target(old(Abs()), p) && Abs() == Open(old(Abs()), alarm, p)
    {
      hide Leads, Rooted;
      if p.join.Some? && p.join.value in members {
        sid := p.join.value;
        if Get(sitOf, alarm) != Some(sid) {
          joins := joins + 1;
        }
      } else {
        sid := OpenFresh();
      }
    }

    method Compare(incident: string, candidates: seq<int>)
      requires forall a :: a in latest ==> latest[a] < |acts|
      modifies this`compared
      ensures compared == old(compared) + Comparisons(acts, latest, incident, candidates)
    {
      ghost var was := compared;
      for i := 0 to |candidates|
        invariant compared == was + Comparisons(acts, latest, incident, candidates[..i])
      {
        assert candidates[..i + 1][..i] == candidates[..i];
        var other := candidates[i];
        if other in latest {
          var j := latest[other];
          compared := compared + [Compared(|acts|, j, acts[j].incident == incident)];
        }
      }
      assert candidates[..|candidates|] == candidates;
    }

    /** The alarm takes its place ... */
    method Seat(act: Activation, sid: int)
      requires sid in members
      modifies this`sitOf, this`members, this`touched, this`clearedSince, this`active
      ensures sitOf == old(sitOf)[act.alarm := sid] && touched == old(touched)[sid := act.ts]
      ensures members == old(members)[sid := old(members)[sid] + {act.alarm}]
      ensures clearedSince == old(clearedSince) - {sid} && active == old(active)[act.alarm := true]
    {
      sitOf := sitOf[act.alarm := sid];
      members := members[sid := members[sid] + {act.alarm}];
      touched := touched[sid := act.ts];
      clearedSince := clearedSince - {sid};
      active := active[act.alarm := true];
    }

    /** ... and the activation is recorded. */
    method Record(act: Activation, sid: int)
      requires forall a :: a in latest ==> latest[a] < |acts|
      modifies this`actSid, this`latest, this`compared, this`acts
      ensures actSid == old(actSid) + [sid] && acts == old(acts) + [act]
      ensures latest == old(latest)[act.alarm := |old(actSid)|]
      ensures compared == old(compared) + Comparisons(old(acts), old(latest), act.incident, act.candidates)
    {
      hide Comparisons;
      var index := |actSid|;
      actSid := actSid + [sid];
      Compare(act.incident, act.candidates);
      latest := latest[act.alarm := index];
      acts := acts + [act];
    }

    method Settled(act: Activation, sid: int)
      requires Recorded(Abs()) && sid in members
      modifies this`sitOf, this`members, this`touched, this`clearedSince, this`active, this`actSid,
               this`latest, this`compared, this`acts
      ensures Abs() == Land(old(Abs()), act, sid)
    {
      hide Comparisons;
      Seat(act, sid);
      Record(act, sid);
    }

    method MergeEach(sid: int, merge: seq<int>)
      requires Leads(parent, rep, depth) && InvFolding(Abs(), Some(sid)) && sid in members
      requires members.Keys == touched.Keys + {sid}
      modifies this`parent, this`rep, this`depth, this`sitOf, this`members, this`touched, this`unions
      ensures Leads(parent, rep, depth) && Abs() == AbsorbAll(old(Abs()), sid, merge)
    {
      hide Leads, InvFolding, Rooted, Absorb;
      ghost var s := Abs();
      for i := 0 to |merge|
        invariant Leads(parent, rep, depth) && Abs() == AbsorbAll(s, sid, merge[..i])
      {
        MergeReady(s, sid, merge, i);
        Merge(sid, merge[i]);
      }
      assert merge[..|merge|] == merge;
    }

    /** A placement is carried out. */
    method Carry(act: Activation, p: Placement) returns (sid: int)
      requires Leads(parent, rep, depth) && Inv(Abs())
      requires Answers(p, sitOf, Get(sitOf, act.alarm))
      modifies this`sitOf, this`members, this`touched, this`clearedSince, this`active, this`actSid,
               this`latest, this`compared, this`acts, this`parent, this`rep, this`depth, this`nextSid,
               this`joins, this`unions
      ensures Leads(parent, rep, depth)
      ensures sid == Target(old(Abs()), p) && Abs() == PlaceStep(old(Abs()), act, p)
    {
      hide Leads, Inv, InvFolding, Rooted, Recorded, Answers, Open, AbsorbAll, Target, Land;
      CarryReady(Abs(), act, p);
      sid := Enter(act.alarm, p);
      MergeEach(sid, p.merge);
      Settled(act, sid);
    }

    /** An activation, placed by the grouper among the situations still open. */
    method Decide(act: Activation, scored: seq<Scored>) returns (p: Placement)
      requires Valid() && Inv(Abs())
      ensures p == PlacementOf(cfg, Abs(), grouper.View(), act, scored)
      ensures Answers(p, sitOf, Get(sitOf, act.alarm)) && Target(Abs(), p) !in p.merge
    {
      p := grouper.Place(scored, sitOf, Get(sitOf, act.alarm));
      PlacementAnswers(cfg, Abs(), grouper.View(), act, scored);
      TargetMeets(Abs(), p, Get(sitOf, act.alarm));
    }

    method Seated(act: Activation, scored: seq<Scored>) returns (sid: int, p: Placement)
      requires Valid() && Inv(Abs())
      modifies this
      ensures Valid() && hist == old(hist) && links == old(links)
      ensures grouper.View() == old(grouper.View()) && grouper.Accs() == old(grouper.Accs())
      ensures p == PlacementOf(cfg, old(Abs()), old(grouper.View()), act, scored)
      ensures sid == Target(old(Abs()), p) && Abs() == PlaceStep(old(Abs()), act, p) && sid !in p.merge
    {
      hide Leads, Shared, ViewOf, AccsOf, Inv, Answers, PlaceStep, Target, PlacementOf;
      AccsAllocated(grouper);
      p := Decide(act, scored);
      sid := Carry(act, p);
    }

    method Place(act: Activation, scored: seq<Scored>) returns (sid: int)
      requires Valid() && Inv(Abs())
      modifies this, grouper`cross, grouper.Accs()
      ensures Valid() && hist == old(hist) && links == old(links)
      ensures var p := PlacementOf(cfg, old(Abs()), old(grouper.View()), act, scored);
              && sid == Target(old(Abs()), p) && Abs() == PlaceStep(old(Abs()), act, p)
              && grouper.View() == Grouping.Commit(cfg.mode, old(grouper.View()), sid, p.merge, scored, sitOf)
      ensures fresh(grouper.Accs() - old(grouper.Accs()))
    {
      hide Leads, Shared, ViewOf, Inv, Answers, PlaceStep, Target, PlacementOf, Grouping.Commit;
      var p;
      sid, p := Seated(act, scored);
      ghost var accs := grouper.Accs();
      grouper.Commit(sid, p.merge, scored, sitOf);
      forall acc | acc in grouper.Accs() && acc !in old(grouper.Accs())
        ensures fresh(acc)
      {
        assert acc in grouper.Accs() - accs;
      }
    }

    method Raise(act: Activation, scored: seq<Scored>)
      requires Valid() && Inv(Abs())
      modifies this, grouper`cross, grouper.Accs()
      ensures Valid() && Sys() == Advance(cfg, old(Sys()), Raised(act, scored))
      ensures fresh(grouper.Accs() - old(grouper.Accs()))
    {
      hide Leads, Shared, ViewOf, Inv, Ready, PlacementOf, PlaceStep, Notes, LinksOf, Target, Grouping.Commit;
      Prepare(act.ts);
      ghost var y := Sys();
      ghost var accs := grouper.Accs();
      var sid := Place(act, scored);
      forall acc | acc in grouper.Accs() && acc !in old(grouper.Accs())
        ensures fresh(acc)
      {
        assert acc !in accs;
        assert acc in grouper.Accs() - accs;
      }
      Note(y, act, scored, sid);
    }

    /** One operation of the stream. */
    method Step(op: Op)
      requires Valid() && Inv(Abs())
      modifies this, grouper`cross, grouper.Accs()
      ensures Valid() && Sys() == Advance(cfg, old(Sys()), op)
      ensures fresh(grouper.Accs() - old(grouper.Accs()))
    {
      hide Leads, Shared, ViewOf, Inv, Advance;
      match op
      case Cleared(alarm, at) => Clear(alarm, at);
      case Raised(act, scored) => Raise(act, scored);
    }

    ghost method Note(y: System, act: Activation, scored: seq<Scored>, sid: int)
      modifies this`hist, this`links
      ensures hist == (if cfg.mode.Components? then old(hist) else old(hist) + Notes(sid, scored, sitOf))
      ensures links == old(links) + LinksOf(y.s, act.alarm, scored)
    {
      hist := if cfg.mode.Components? then hist else hist + Notes(sid, scored, sitOf);
      links := links + LinksOf(y.s, act.alarm, scored);
    }

    method RootsOf(sids: seq<int>) returns (pred: seq<int>)
      requires Leads(parent, rep, depth) && Forest(rep) && forall k :: 0 <= k < |sids| ==> sids[k] in rep
      modifies this`parent
      ensures Leads(parent, rep, depth)
      ensures |pred| == |sids| && forall k :: 0 <= k < |sids| ==> pred[k] == rep[sids[k]]
    {
      hide Leads, Forest;
      pred := [];
      for i := 0 to |sids|
        invariant Leads(parent, rep, depth)
        invariant |pred| == i && forall k :: 0 <= k < i ==> pred[k] == rep[sids[k]]
      {
        var r := Find(sids[i]);
        pred := pred + [r];
      }
    }

    /** `[find(s) for s in act_sid]`. */
    method Predict() returns (pred: seq<int>)
      requires Valid() && Inv(Abs())
      modifies this`parent
      ensures Valid() && pred == Pred(Abs())
    {
      hide Leads, Shared, Forest, Inv;
      InvRoots(Abs());
      pred := RootsOf(actSid);
    }
  }

  /** `group`: the replay of a whole stream. It returns what the value replay leaves, and of every activation
      of the stream, in order, its incident, family, time and whether it is an unrecognised clear. */
  method Group(name: string, concurrent: map<string, string>, cfg: Config, ops: seq<Op>) returns (o: Outcome)
    ensures o == OutcomeOf(name, concurrent, Replayed(cfg, ops).s)
    ensures o.name == name && o.concurrent == concurrent && o.compared == Paired(Activations(ops))
    ensures |o.truth| == |o.family| == |o.pred| == |o.ts| == |o.clear| == |Activations(ops)|
    ensures forall i :: 0 <= i < |Activations(ops)| ==>
              var act := Activations(ops)[i];
              && o.truth[i] == act.incident && o.family[i] == act.family
              && o.ts[i] == act.ts && o.clear[i] == act.clear
  {
    var r := new Replayer(cfg);
    hide Leads, Shared, ViewOf, Inv, Advance, Replayed, Truths, Families, Times, Clears, Activations, Paired;
    OutcomeTells(cfg, ops, name, concurrent);
    ReplayedNone(cfg, ops);
    for i := 0 to |ops|
      invariant r.Valid() && r.cfg == cfg && r.Sys() == Replayed(cfg, ops[..i])
      invariant fresh(r) && fresh(r.grouper) && forall acc :: acc in r.grouper.Accs() ==> fresh(acc)
    {
      ReplayedStep(cfg, ops, i);
      ReplayedKeeps(cfg, ops[..i]);
      ghost var accs := r.grouper.Accs();
      r.Step(ops[i]);
      assert forall acc :: acc in r.grouper.Accs() ==> acc in accs || acc in r.grouper.Accs() - accs;
    }
    assert ops[..|ops|] == ops;
    ReplayedKeeps(cfg, ops);
    var acts, joins, compared := r.acts, r.joins, r.compared;
    var pred := r.Predict();
    o := Outcome(name, Truths(acts), Families(acts), pred, Times(acts), compared, concurrent, joins, Clears(acts));
  }
}
