/**
 What the replay's final partition means: for any grouper, it is the finest one that keeps together
 the activations given one situation and every pair of situations merged; nothing is separated
 again, and a closed situation gains nothing.
 */
module Partition {
  import opened Wrappers
  import opened Grouping
  import opened Replay

  /** The situation each activation ends up in: `pred`. */
  function Pred(s: State): seq<int> {
    seq(|s.actSid|, i requires 0 <= i < |s.actSid| => Root(s.rep, s.actSid[i]))
  }

  // ---------- what one placement does to the roots ----------

  lemma AbsorbRoots(s: State, sid: int, other: int)
    requires Rooted(s.rep, s.members.Keys, s.nextSid) && sid in s.members
    ensures var t := Absorb(s, sid, other);
            && t.rep.Keys == s.rep.Keys
            && (other in s.members && other != sid ==>
                  forall x :: x in s.rep ==> t.rep[x] == if s.rep[x] == other then sid else s.rep[x])
            && (other !in s.members || other == sid ==> t == s)
  {
  }

  /** `after` is `before` with every live root of `merge` sent to `sid`. */
  ghost predicate Sent(before: map<int, int>, after: map<int, int>, sid: int, live: set<int>, merge: seq<int>) {
    && after.Keys == before.Keys
    && forall x :: x in before ==> after[x] == if before[x] in merge && before[x] in live then sid else before[x]
  }

  lemma SentOneMore(r: map<int, int>, r1: map<int, int>, r2: map<int, int>, sid: int, live: set<int>,
                    merge: seq<int>, other: int)
    requires Sent(r, r1, sid, live, merge)
    requires r2.Keys == r1.Keys
    requires if other == sid || other in merge || other !in live then r2 == r1
             else forall x :: x in r1 ==> r2[x] == if r1[x] == other then sid else r1[x]
    ensures Sent(r, r2, sid, live, merge + [other])
  {
  }

  lemma {:induction false} AbsorbAllRoots(s: State, sid: int, merge: seq<int>)
    requires InvFolding(s, Some(sid)) && sid in s.members && s.members.Keys == s.touched.Keys + {sid}
    ensures Sent(s.rep, AbsorbAll(s, sid, merge).rep, sid, s.members.Keys, merge)
  {
    hide InvFolding, Absorb, Sent;
    if merge == [] {
      SentNone(s.rep, sid, s.members.Keys);
    } else {
      var shorter := merge[..|merge| - 1];
      var other := merge[|merge| - 1];
      AbsorbAllRoots(s, sid, shorter);
      AbsorbAllKeeps(s, sid, shorter);
      var before := AbsorbAll(s, sid, shorter);
      FoldingRoots(before, sid);
      AbsorbRoots(before, sid, other);
      assert merge == shorter + [other];
      assert other != sid ==> (other in before.members <==> other in s.members && other !in shorter);
      SentOneMore(s.rep, before.rep, Absorb(before, sid, other).rep, sid, s.members.Keys, shorter, other);
    }
  }

  lemma SentNone(r: map<int, int>, sid: int, live: set<int>)
    ensures Sent(r, r, sid, live, [])
  {
  }

  lemma FoldingRoots(s: State, sid: int)
    requires InvFolding(s, Some(sid))
    ensures Rooted(s.rep, s.members.Keys, s.nextSid)
  {
  }

  /** What a placement records, and which situations are live after it. */
  lemma PlaceRecords(s: State, act: Activation, p: Placement)
    requires Inv(s) && Moves(s, act.alarm, p)
    ensures var t := PlaceStep(s, act, p);
            var sid := Target(s, p);
            && t.actSid == s.actSid + [sid] && t.latest == s.latest[act.alarm := |s.actSid|]
            && t.members.Keys == (s.members.Keys - (set m | m in p.merge)) + {sid}
  {
    var sid := Target(s, p);
    OpenKeeps(s, act.alarm, p);
    AbsorbAllKeeps(Open(s, act.alarm, p), sid, p.merge);
    AbsorbAllFrame(Open(s, act.alarm, p), sid, p.merge);
    hide AbsorbAll, InvFolding, Inv, Moves, Target;
  }

  /** The placement joins a live situation or opens a fresh one, and folds only live ones. */
  lemma TargetMeets(s: State, p: Placement, own: Option<int>)
    requires Inv(s) && Answers(p, s.sitOf, own)
    ensures var sid := Target(s, p);
            && (sid in s.rep ==> p.join == Some(sid) && sid in s.members && s.rep[sid] == sid)
            && (sid !in s.rep ==> sid == s.nextSid && p.join.None? && p.merge == [])
            && (forall m :: m in p.merge ==> m in s.members && m in s.rep && m != sid)
  {
    if p.join.Some? {
      var a :| a in s.sitOf && s.sitOf[a] == p.join.value;
      assert p.join.value in s.members;
    }
    forall m | m in p.merge
      ensures m in s.members && m != Target(s, p)
    {
      var a :| a in s.sitOf && s.sitOf[a] == m;
    }
  }

  /** A placement sends every live root it folds to the landing situation and leaves every other root. */
  lemma PlaceRoots(s: State, act: Activation, p: Placement)
    requires Inv(s) && Moves(s, act.alarm, p)
    ensures var t := PlaceStep(s, act, p);
            var sid := Target(s, p);
            && t.rep.Keys == s.rep.Keys + {sid} && t.rep[sid] == sid
            && forall x :: x in s.rep ==>
                 t.rep[x] == if s.rep[x] in p.merge && s.rep[x] in s.members then sid else s.rep[x]
  {
    var sid := Target(s, p);
    OpenKeeps(s, act.alarm, p);
    AbsorbAllRoots(Open(s, act.alarm, p), sid, p.merge);
  }

  lemma PrepareRoots(s: State, ts: real, hold: real)
    ensures var t := Prepare(s, ts, hold);
            && t.rep == s.rep && t.actSid == s.actSid && t.latest == s.latest && t.unions == s.unions
            && t.acts == s.acts
            && t.members.Keys == s.members.Keys - Expired(s, ts, hold) - Idle(ExpireStep(s, ts, hold), ts)
  {
    hide Prepare, Expired, Idle, ExpireStep;
    PrepareRecords(s, ts, hold);
  }

  lemma ClearRoots(s: State, alarm: int, at: real, hold: real)
    ensures var t := ClearStep(s, alarm, at, hold);
            && t.rep == s.rep && t.actSid == s.actSid && Pred(t) == Pred(s)
            && t.members.Keys == s.members.Keys - ClearCloses(s, alarm, hold)
  {
    hide ClearStep, ClearCloses;
    ClearRecords(s, alarm, at, hold);
  }

  // ---------- nothing is separated again; the closed gain nothing ----------

  lemma InvGiven(s: State, i: nat)
    requires Inv(s) && i < |s.actSid|
    ensures s.actSid[i] in s.rep
  {
  }

  lemma PlaceTogether(s: State, act: Activation, p: Placement, i: nat, j: nat)
    requires Inv(s) && Moves(s, act.alarm, p) && i < |s.actSid| && j < |s.actSid|
    requires Pred(s)[i] == Pred(s)[j]
    ensures var t := PlaceStep(s, act, p);
            i < |t.actSid| && j < |t.actSid| && Pred(t)[i] == Pred(t)[j]
  {
    PlaceRoots(s, act, p);
    PlaceRecords(s, act, p);
    InvGiven(s, i);
    InvGiven(s, j);
    hide PlaceStep, Moves, Inv, Target;
  }

  lemma StepTogether(s: State, e: Event, hold: real, i: nat, j: nat)
    requires Inv(s) && Answered(s, e, hold) && i < |s.actSid| && j < |s.actSid|
    requires Pred(s)[i] == Pred(s)[j]
    ensures var t := Step(s, e, hold);
            i < |t.actSid| && j < |t.actSid| && Pred(t)[i] == Pred(t)[j]
  {
    hide Inv, Prepare, PlaceStep, ClearStep, Moves;
    match e.op
    case Cleared(alarm, at) => ClearRoots(s, alarm, at, hold);
    case Raised(act, _) =>
      PrepareKeeps(s, act.ts, hold);
      PrepareRoots(s, act.ts, hold);
      PlaceTogether(Prepare(s, act.ts, hold), act, e.placement, i, j);
  }

  /** Two activations once together stay together, whatever the stream and the grouper do after. */
  lemma {:induction false} NeverSeparated(s: State, es: seq<Event>, hold: real, i: nat, j: nat)
    requires Inv(s) && AnsweredAll(s, es, hold) && i < |s.actSid| && j < |s.actSid|
    requires Pred(s)[i] == Pred(s)[j]
    ensures var t := Run(s, es, hold);
            i < |t.actSid| && j < |t.actSid| && Pred(t)[i] == Pred(t)[j]
  {
    hide Inv, Step, Answered, Pred;
    if es != [] {
      NeverSeparated(s, es[..|es| - 1], hold, i, j);
      RunKeeps(s, es[..|es| - 1], hold);
      StepTogether(Run(s, es[..|es| - 1], hold), es[|es| - 1], hold, i, j);
    }
  }

  /** A situation that has closed. */
  ghost predicate Closed(s: State, root: int) {
    root in s.rep && s.rep[root] == root && root !in s.members
  }

  /** The activation is one of the situation's. */
  predicate Belongs(s: State, i: nat, root: int) {
    i < |s.actSid| && Pred(s)[i] == root
  }

  lemma PlaceGivesClosedNothing(s: State, act: Activation, p: Placement, root: int)
    requires Inv(s) && Moves(s, act.alarm, p) && Closed(s, root)
    ensures Closed(PlaceStep(s, act, p), root)
    ensures forall i: nat :: Belongs(PlaceStep(s, act, p), i, root) <==> Belongs(s, i, root)
  {
    PlaceRoots(s, act, p);
    PlaceRecords(s, act, p);
    var t := PlaceStep(s, act, p);
    assert Root(t.rep, Target(s, p)) != root;
    forall i: nat | i < |s.actSid|
      ensures Root(t.rep, t.actSid[i]) == root <==> Root(s.rep, s.actSid[i]) == root
    {
      InvGiven(s, i);
    }
    hide PlaceStep, Moves, Inv, Target;
  }

  lemma StepGivesClosedNothing(s: State, e: Event, hold: real, root: int)
    requires Inv(s) && Answered(s, e, hold) && Closed(s, root)
    ensures Closed(Step(s, e, hold), root)
    ensures forall i: nat :: Belongs(Step(s, e, hold), i, root) <==> Belongs(s, i, root)
  {
    hide Inv, Prepare, PlaceStep, ClearStep, Moves;
    match e.op
    case Cleared(alarm, at) => ClearRoots(s, alarm, at, hold);
    case Raised(act, _) =>
      PrepareKeeps(s, act.ts, hold);
      PrepareRoots(s, act.ts, hold);
      PlaceGivesClosedNothing(Prepare(s, act.ts, hold), act, e.placement, root);
  }

  /** A closed situation stays closed, and its activations are at every later time exactly the ones it
      had: it loses none and gains none. */
  lemma {:induction false} ClosedGainsNothing(s: State, es: seq<Event>, hold: real, root: int)
    requires Inv(s) && AnsweredAll(s, es, hold) && Closed(s, root)
    ensures Closed(Run(s, es, hold), root)
    ensures forall i: nat :: Belongs(Run(s, es, hold), i, root) <==> Belongs(s, i, root)
  {
    hide Inv, Step, Answered, Closed, Belongs;
    if es != [] {
      ClosedGainsNothing(s, es[..|es| - 1], hold, root);
      RunKeeps(s, es[..|es| - 1], hold);
      StepGivesClosedNothing(Run(s, es[..|es| - 1], hold), es[|es| - 1], hold, root);
    }
  }

  // ---------- the finest partition ----------

  /** Ids 1, 2, ..., n - 1, each its own root. */
  function Apart(n: int): map<int, int> {
    if n <= 1 then map[] else Apart(n - 1)[n - 1 := n - 1]
  }

  lemma ApartMeets(n: int)
    ensures forall x :: x in Apart(n) <==> 1 <= x < n
    ensures forall x :: x in Apart(n) ==> Apart(n)[x] == x
  {
  }

  /** The roots after the given merges, of ids 1, 2, ..., n - 1 that began apart. */
  function Roots(unions: seq<(int, int)>, n: int): map<int, int> {
    if unions == [] then Apart(n)
    else Union(Roots(unions[..|unions| - 1], n), unions[|unions| - 1].0, unions[|unions| - 1].1)
  }

  ghost predicate Known(unions: seq<(int, int)>, n: int) {
    forall u :: u in unions ==> 1 <= u.0 < n && 1 <= u.1 < n
  }

  lemma RootsForest(unions: seq<(int, int)>, n: int)
    requires Known(unions, n)
    ensures var r := Roots(unions, n); (forall x :: x in r <==> 1 <= x < n) && Forest(r)
  {
    ApartMeets(n);
    if unions != [] {
      RootsForest(unions[..|unions| - 1], n);
      assert unions[|unions| - 1] in unions;
      UnionForest(Roots(unions[..|unions| - 1], n), unions[|unions| - 1].0, unions[|unions| - 1].1);
    }
  }

  lemma FreshApart(rep: map<int, int>, x: int, y: int, n: int)
    requires Forest(rep) && x in rep && y in rep && n !in rep
    ensures Union(rep[n := n], x, y) == Union(rep, x, y)[n := n]
  {
    var before, after := Union(rep, x, y)[n := n], Union(rep[n := n], x, y);
    assert rep[x] in rep && rep[y] in rep;
    assert before.Keys == after.Keys && forall z :: z in before ==> before[z] == after[z];
  }

  /** A fresh id changes nothing for the ids before it. */
  lemma RootsGrow(unions: seq<(int, int)>, n: int)
    requires Known(unions, n) && n >= 1
    ensures Roots(unions, n + 1) == Roots(unions, n)[n := n]
  {
    if unions != [] {
      var shorter := unions[..|unions| - 1];
      var u := unions[|unions| - 1];
      assert u in unions;
      RootsGrow(shorter, n);
      RootsForest(shorter, n);
      FreshApart(Roots(shorter, n), u.0, u.1, n);
    }
  }

  /** A labelling of the situation ids that no performed merge separates. */
  ghost predicate Respects(f: map<int, int>, unions: seq<(int, int)>, n: int) {
    && (forall x :: 1 <= x < n ==> x in f)
    && (forall u :: u in unions ==> u.0 in f && u.1 in f && f[u.0] == f[u.1])
  }

  lemma RootsFinest(unions: seq<(int, int)>, n: int, f: map<int, int>, x: int)
    requires Known(unions, n) && Respects(f, unions, n) && 1 <= x < n
    ensures var r := Roots(unions, n); x in r && r[x] in f && f[r[x]] == f[x]
  {
    ApartMeets(n);
    if unions != [] {
      var shorter := unions[..|unions| - 1];
      var u := unions[|unions| - 1];
      assert u in unions;
      RootsForest(shorter, n);
      RootsFinest(shorter, n, f, x);
      RootsFinest(shorter, n, f, u.0);
      RootsFinest(shorter, n, f, u.1);
    }
  }

  lemma RootsRespect(unions: seq<(int, int)>, n: int)
    requires Known(unions, n)
    ensures Respects(Roots(unions, n), unions, n)
  {
    RootsForest(unions, n);
    if unions != [] {
      var shorter := unions[..|unions| - 1];
      var u := unions[|unions| - 1];
      RootsRespect(shorter, n);
      RootsForest(shorter, n);
      var r := Roots(unions, n);
      forall v | v in unions
        ensures v.0 in r && v.1 in r && r[v.0] == r[v.1]
      {
        assert v in shorter || v == u;
      }
    }
  }

  /** The union-find holds exactly the merges performed. */
  ghost predicate Unified(s: State) {
    s.nextSid >= 1 && Known(s.unions, s.nextSid) && s.rep == Roots(s.unions, s.nextSid)
  }

  lemma OpenUnified(s: State, alarm: int, p: Placement)
    requires Unified(s)
    ensures Unified(Open(s, alarm, p))
  {
    RootsGrow(s.unions, s.nextSid);
  }

  lemma AbsorbUnified(s: State, sid: int, other: int)
    requires Unified(s) && sid in s.rep && s.members.Keys <= s.rep.Keys
    ensures var t := Absorb(s, sid, other);
            Unified(t) && t.rep.Keys == s.rep.Keys && t.members.Keys <= s.members.Keys + {sid}
  {
    RootsForest(s.unions, s.nextSid);
    RootsMore(s.unions, s.nextSid, other, sid);
    hide Roots;
  }

  lemma RootsMore(unions: seq<(int, int)>, n: int, x: int, y: int)
    ensures Roots(unions + [(x, y)], n) == Union(Roots(unions, n), x, y)
  {
    assert (unions + [(x, y)])[..|unions|] == unions;
  }

  lemma AbsorbAllUnified(s: State, sid: int, merge: seq<int>)
    requires Unified(s) && sid in s.rep && s.members.Keys <= s.rep.Keys
    ensures var t := AbsorbAll(s, sid, merge);
            Unified(t) && t.rep.Keys == s.rep.Keys && t.members.Keys <= s.members.Keys + {sid}
  {
    if merge != [] {
      AbsorbAllUnified(s, sid, merge[..|merge| - 1]);
      AbsorbUnified(AbsorbAll(s, sid, merge[..|merge| - 1]), sid, merge[|merge| - 1]);
    }
  }

  lemma PlaceUnified(s: State, act: Activation, p: Placement)
    requires Inv(s) && Unified(s)
    ensures Unified(PlaceStep(s, act, p))
  {
    OpenKeeps(s, act.alarm, p);
    OpenUnified(s, act.alarm, p);
    var landing := Open(s, act.alarm, p);
    assert Rooted(landing.rep, landing.members.Keys, landing.nextSid);
    assert forall x :: x in landing.members.Keys ==> x in landing.rep;
    AbsorbAllUnified(landing, Target(s, p), p.merge);
  }

  lemma StepUnified(s: State, e: Event, hold: real)
    requires Inv(s) && Unified(s)
    ensures Unified(Step(s, e, hold))
  {
    hide Inv, Roots, Prepare, PlaceStep, ClearStep;
    match e.op
    case Cleared(alarm, at) => ClearRecords(s, alarm, at, hold);
    case Raised(act, _) =>
      PrepareKeeps(s, act.ts, hold);
      PrepareRecords(s, act.ts, hold);
      PlaceUnified(Prepare(s, act.ts, hold), act, e.placement);
  }

  lemma {:induction false} RunUnified(es: seq<Event>, hold: real)
    requires AnsweredAll(START, es, hold)
    ensures Unified(Run(START, es, hold))
  {
    if es != [] {
      StartHolds();
      RunKeeps(START, es[..|es| - 1], hold);
      RunUnified(es[..|es| - 1], hold);
      StepUnified(Run(START, es[..|es| - 1], hold), es[|es| - 1], hold);
    }
  }

  /** The final prediction is exactly the finest partition that keeps together the activations given
      one situation and every two situations merged: two activations share a prediction if and only
      if no labelling that respects every merge tells their situations apart. */
  lemma PredIsFinest(es: seq<Event>, hold: real, i: nat, j: nat)
    requires AnsweredAll(START, es, hold)
    requires i < |Run(START, es, hold).actSid| && j < |Run(START, es, hold).actSid|
    ensures var s := Run(START, es, hold);
            && 1 <= s.actSid[i] < s.nextSid && 1 <= s.actSid[j] < s.nextSid
            && (Pred(s)[i] == Pred(s)[j] <==>
                forall f: map<int, int> | Respects(f, s.unions, s.nextSid) :: f[s.actSid[i]] == f[s.actSid[j]])
  {
    var s := Run(START, es, hold);
    StartHolds();
    RunKeeps(START, es, hold);
    RunUnified(es, hold);
    var x, y := s.actSid[i], s.actSid[j];
    assert x in s.rep && y in s.rep;
    RootsRespect(s.unions, s.nextSid);
    forall f: map<int, int> | Respects(f, s.unions, s.nextSid)
      ensures s.rep[x] == s.rep[y] ==> f[x] == f[y]
    {
      RootsFinest(s.unions, s.nextSid, f, x);
      RootsFinest(s.unions, s.nextSid, f, y);
    }
  }
}
