/**
 The replay under the appliance's own grouper, in both of its modes.

 In cluster mode the evidence kept between two open situations is, at every moment, the evidence of
 every pair ever scored across them - however the alarms came to be in those situations. In
 components mode the partition is the connected components of the accepted links, no more, no less.
 */
module Correlation {
  import opened Wrappers
  import opened Grouping
  import opened Replay
  import opened Partition

  datatype Config = Config(mode: Mode, params: Params, hold: real)

  /** One pair's evidence, with the situations its two alarms were in when it was scored. */
  datatype Noted = Noted(mine: int, other: int, evidence: real)

  /** The replay and its grouper; `hist` and `links` are history variables: every cross pair scored,
      and every accepted link, as a pair of activation indices. */
  datatype System = System(s: State, cross: Cross, hist: seq<Noted>, links: set<(nat, nat)>)

  const BEGIN := System(START, map[], [], {})

  function Notes(sid: int, scored: seq<Scored>, sitOf: map<int, int>): seq<Noted> {
    if scored == [] then []
    else
      var before := Notes(sid, scored[..|scored| - 1], sitOf);
      var pair := scored[|scored| - 1];
      if pair.alarm in sitOf && sitOf[pair.alarm] != sid
      then before + [Noted(sid, sitOf[pair.alarm], pair.evidence)] else before
  }

  /** The links a new activation accepts: to the latest activation of every placed alarm it is
      linked to, and of its own alarm if that is still placed. */
  function LinksOf(s: State, alarm: int, scored: seq<Scored>): set<(nat, nat)> {
    (set p | p in scored && p.linked && p.alarm in s.sitOf && p.alarm in s.latest
       :: (|s.actSid|, s.latest[p.alarm]))
    + (if alarm in s.sitOf && alarm in s.latest then {(|s.actSid|, s.latest[alarm])} else {})
  }

  function PlacementOf(cfg: Config, s: State, cross: Cross, act: Activation, scored: seq<Scored>): Placement {
    Place(cfg.mode, cfg.params, cross, scored, s.sitOf, Get(s.sitOf, act.alarm))
  }

  /** The system as an activation finds it: expired and idle situations closed and forgotten. */
  function Ready(cfg: Config, y: System, ts: real): System {
    var held := ExpireStep(y.s, ts, cfg.hold);
    y.(s := SweepStep(held, ts),
       cross := Forget(Forget(y.cross, Expired(y.s, ts, cfg.hold)), Idle(held, ts)))
  }

  function RaiseStep(cfg: Config, y: System, act: Activation, scored: seq<Scored>): System {
    var p := PlacementOf(cfg, y.s, y.cross, act, scored);
    var sid := Target(y.s, p);
    var t := PlaceStep(y.s, act, p);
    System(t,
           Commit(cfg.mode, y.cross, sid, p.merge, scored, t.sitOf),
           if cfg.mode.Components? then y.hist else y.hist + Notes(sid, scored, t.sitOf),
           y.links + LinksOf(y.s, act.alarm, scored))
  }

  function Advance(cfg: Config, y: System, op: Op): System {
    match op
    case Cleared(alarm, at) =>
      y.(s := ClearStep(y.s, alarm, at, cfg.hold),
         cross := Forget(y.cross, ClearCloses(y.s, alarm, cfg.hold)))
    case Raised(act, scored) => RaiseStep(cfg, Ready(cfg, y, act.ts), act, scored)
  }

  function Replayed(cfg: Config, ops: seq<Op>): System {
    if ops == [] then BEGIN else Advance(cfg, Replayed(cfg, ops[..|ops| - 1]), ops[|ops| - 1])
  }

  // ---------- the replay under this grouper is one of the runs already studied ----------

  lemma PlacementAnswers(cfg: Config, s: State, cross: Cross, act: Activation, scored: seq<Scored>)
    ensures Answers(PlacementOf(cfg, s, cross, act, scored), s.sitOf, Get(s.sitOf, act.alarm))
    ensures Inv(s) ==> Moves(s, act.alarm, PlacementOf(cfg, s, cross, act, scored))
  {
    PlaceAnswers(cfg.mode, cfg.params, cross, scored, s.sitOf, Get(s.sitOf, act.alarm));
    if Inv(s) {
      AnswersMove(s, act.alarm, PlacementOf(cfg, s, cross, act, scored));
    }
  }

  lemma RaiseKeeps(cfg: Config, y: System, act: Activation, scored: seq<Scored>)
    requires Inv(y.s)
    ensures Inv(RaiseStep(cfg, y, act, scored).s)
  {
    PlacementAnswers(cfg, y.s, y.cross, act, scored);
    PlaceKeeps(y.s, act, PlacementOf(cfg, y.s, y.cross, act, scored));
  }

  lemma AdvanceKeeps(cfg: Config, y: System, op: Op)
    requires Inv(y.s)
    ensures Inv(Advance(cfg, y, op).s)
  {
    match op
    case Cleared(alarm, at) => ClearKeeps(y.s, alarm, at, cfg.hold);
    case Raised(act, scored) =>
      PrepareKeeps(y.s, act.ts, cfg.hold);
      RaiseKeeps(cfg, Ready(cfg, y, act.ts), act, scored);
  }

  /** The replay invariant holds after every prefix of every stream, under every configuration and
      every decider. */
  lemma {:induction false} ReplayedKeeps(cfg: Config, ops: seq<Op>)
    ensures Inv(Replayed(cfg, ops).s)
  {
    if ops == [] {
      StartHolds();
    } else {
      ReplayedKeeps(cfg, ops[..|ops| - 1]);
      AdvanceKeeps(cfg, Replayed(cfg, ops[..|ops| - 1]), ops[|ops| - 1]);
    }
  }

  // ---------- accumulated evidence ----------

  predicate Between(h: Noted, rep: map<int, int>, a: int, b: int) {
    (Root(rep, h.mine) == a && Root(rep, h.other) == b)
    || (Root(rep, h.mine) == b && Root(rep, h.other) == a)
  }

  /** All the evidence ever scored between what are now the situations `a` and `b`. */
  function Total(hist: seq<Noted>, rep: map<int, int>, a: int, b: int): Ev {
    if hist == [] then ZERO
    else
      var h := hist[|hist| - 1];
      var before := Total(hist[..|hist| - 1], rep, a, b);
      if Between(h, rep, a, b) then Plus(before, Ev(h.evidence, 1)) else before
  }

  /** Which notes are between what are now the two situations: one end in each. */
  ghost function Across(hist: seq<Noted>, rep: map<int, int>, a: int, b: int): set<nat> {
    set k: nat | k < |hist| && {Root(rep, hist[k].mine), Root(rep, hist[k].other)} == {a, b}
  }

  ghost function EvidenceOf(hist: seq<Noted>, at: set<nat>): real {
    if hist == [] then 0.0
    else
      var n := |hist| - 1;
      EvidenceOf(hist[..n], at) + if n in at then hist[n].evidence else 0.0
  }

  lemma {:induction false} EvidenceElsewhere(hist: seq<Noted>, at: set<nat>, more: set<nat>)
    requires forall k :: k in more ==> k >= |hist|
    ensures EvidenceOf(hist, at + more) == EvidenceOf(hist, at)
  {
    if hist != [] {
      EvidenceElsewhere(hist[..|hist| - 1], at, more);
    }
  }

  /** All the evidence between two situations is the number of the pairs ever noted across what they have become,
      and the sum of theirs. */
  lemma {:induction false} TotalCounts(hist: seq<Noted>, rep: map<int, int>, a: int, b: int)
    requires a != b
    ensures Total(hist, rep, a, b).pairs == |Across(hist, rep, a, b)|
    ensures Total(hist, rep, a, b).sum == EvidenceOf(hist, Across(hist, rep, a, b))
  {
    if hist != [] {
      var n := |hist| - 1;
      TotalCounts(hist[..n], rep, a, b);
      AcrossGrows(hist, rep, a, b);
      EvidenceElsewhere(hist[..n], Across(hist[..n], rep, a, b), {n});
    }
  }

  lemma AcrossGrows(hist: seq<Noted>, rep: map<int, int>, a: int, b: int)
    requires hist != [] && a != b
    ensures var n := |hist| - 1;
            var before, now := Across(hist[..n], rep, a, b), Across(hist, rep, a, b);
            now == (if Between(hist[n], rep, a, b) then before + {n} else before) && n !in before
  {
    var n := |hist| - 1;
    var mine, other := Root(rep, hist[n].mine), Root(rep, hist[n].other);
    assert {mine, other} == {a, b} <==> Between(hist[n], rep, a, b) by {
      assert mine in {mine, other} && other in {mine, other};
    }
    assert forall k: nat :: k < n ==> hist[..n][k] == hist[k];
  }

  ghost predicate Witnessed(hist: seq<Noted>, rep: map<int, int>) {
    forall h :: h in hist ==> h.mine in rep && h.other in rep
  }

  /** The grouper's memory: symmetric, about live situations only, and complete. */
  ghost predicate Remembered(cross: Cross, hist: seq<Noted>, rep: map<int, int>, live: set<int>) {
    && Symmetric(cross)
    && (forall p :: p in cross ==> p.0 in live && p.1 in live)
    && Witnessed(hist, rep)
    && (forall a, b :: a in live && b in live && a != b ==> At(cross, a, b) == Total(hist, rep, a, b))
  }

  lemma {:induction false} TotalConcat(hist: seq<Noted>, more: seq<Noted>, rep: map<int, int>, a: int, b: int)
    ensures Total(hist + more, rep, a, b) == Plus(Total(hist, rep, a, b), Total(more, rep, a, b))
  {
    if more == [] {
      assert hist + more == hist;
    } else {
      var h := more[|more| - 1];
      TotalConcat(hist, more[..|more| - 1], rep, a, b);
      assert (hist + more)[|hist + more| - 1] == h;
      assert (hist + more)[..|hist + more| - 1] == hist + more[..|more| - 1];
    }
  }

  /** Only the roots of the pairs matter. */
  lemma TotalSameRoots(hist: seq<Noted>, rep: map<int, int>, rep': map<int, int>, a: int, b: int)
    requires Witnessed(hist, rep) && forall x :: x in rep ==> x in rep' && rep'[x] == rep[x]
    ensures Total(hist, rep', a, b) == Total(hist, rep, a, b)
  {
  }

  lemma TotalNobody(hist: seq<Noted>, rep: map<int, int>, a: int, b: int)
    requires Witnessed(hist, rep) && forall x :: x in rep ==> rep[x] != a
    ensures Total(hist, rep, a, b) == ZERO && Total(hist, rep, b, a) == ZERO
  {
  }

  /** Merging `src` into `dst` hands its evidence over, and makes their mutual evidence internal. */
  lemma {:induction false} TotalUnion(hist: seq<Noted>, rep: map<int, int>, dst: int, src: int, a: int, b: int)
    requires Witnessed(hist, rep) && Forest(rep)
    requires dst in rep && src in rep && rep[dst] == dst && rep[src] == src && dst != src
    requires a != b && a != src && b != src
    ensures Total(hist, Union(rep, src, dst), a, b) ==
            if a == dst then Plus(Total(hist, rep, dst, b), Total(hist, rep, src, b))
            else if b == dst then Plus(Total(hist, rep, a, dst), Total(hist, rep, a, src))
            else Total(hist, rep, a, b)
  {
    if hist != [] {
      var h := hist[|hist| - 1];
      assert h in hist;
      TotalUnion(hist[..|hist| - 1], rep, dst, src, a, b);
    }
  }

  lemma ForgetRemembers(cross: Cross, hist: seq<Noted>, rep: map<int, int>, live: set<int>, dead: set<int>)
    requires Remembered(cross, hist, rep, live)
    ensures Remembered(Forget(cross, dead), hist, rep, live - dead)
  {
    ForgetSymmetric(cross, dead);
    forall a, b | a in live - dead && b in live - dead && a != b
      ensures At(Forget(cross, dead), a, b) == Total(hist, rep, a, b)
    {
      assert At(cross, a, b) == Total(hist, rep, a, b);
    }
  }

  lemma OpenRemembers(cross: Cross, hist: seq<Noted>, rep: map<int, int>, live: set<int>, nextSid: int)
    requires Remembered(cross, hist, rep, live) && Rooted(rep, live, nextSid)
    ensures Remembered(cross, hist, rep[nextSid := nextSid], live + {nextSid})
  {
    var rep' := rep[nextSid := nextSid];
    forall a, b | a in live + {nextSid} && b in live + {nextSid} && a != b
      ensures At(cross, a, b) == Total(hist, rep', a, b)
    {
      TotalSameRoots(hist, rep, rep', a, b);
      if a == nextSid {
        assert (a, b) !in cross;
        TotalNobody(hist, rep, a, b);
      } else if b == nextSid {
        assert (a, b) !in cross;
        TotalNobody(hist, rep, b, a);
      } else {
        assert At(cross, a, b) == Total(hist, rep, a, b);
      }
    }
  }

  lemma FoldEntry(cross: Cross, hist: seq<Noted>, rep: map<int, int>, live: set<int>,
                  dst: int, src: int, a: int, b: int)
    requires Remembered(cross, hist, rep, live) && Forest(rep)
    requires forall x :: x in live ==> x in rep && rep[x] == x
    requires dst in live && src in live && dst != src
    requires a in live - {src} && b in live - {src} && a != b
    ensures At(Fold(cross, dst, src), a, b) == Total(hist, Union(rep, src, dst), a, b)
  {
    FoldReads(cross, dst, src, a, b);
    TotalUnion(hist, rep, dst, src, a, b);
    assert At(cross, a, b) == Total(hist, rep, a, b);
    assert a == dst ==> At(cross, src, b) == Total(hist, rep, src, b);
    assert b == dst ==> At(cross, a, src) == Total(hist, rep, a, src);
  }

  lemma FoldKeysLive(cross: Cross, live: set<int>, dst: int, src: int)
    requires forall p :: p in cross ==> p.0 in live && p.1 in live && p.0 != p.1
    requires dst in live && src in live && dst != src
    ensures forall p :: p in Fold(cross, dst, src) ==> p.0 in live - {src} && p.1 in live - {src}
  {
    forall p | p in Fold(cross, dst, src)
      ensures p.0 in live - {src} && p.1 in live - {src}
    {
      FoldKeyShape(cross, dst, src, p);
    }
  }

  lemma FoldRemembers(cross: Cross, hist: seq<Noted>, rep: map<int, int>, live: set<int>, nextSid: int,
                      dst: int, src: int)
    requires Remembered(cross, hist, rep, live) && Rooted(rep, live, nextSid)
    requires dst in live && src in live && dst != src
    ensures Remembered(Fold(cross, dst, src), hist, Union(rep, src, dst), live - {src})
  {
    FoldSymmetric(cross, dst, src);
    FoldKeysLive(cross, live, dst, src);
    forall a, b | a in live - {src} && b in live - {src} && a != b
      ensures At(Fold(cross, dst, src), a, b) == Total(hist, Union(rep, src, dst), a, b)
    {
      FoldEntry(cross, hist, rep, live, dst, src, a, b);
    }
  }

  /** Every placed alarm's situation is live and its own root. */
  ghost predicate Settled(sitOf: map<int, int>, rep: map<int, int>, live: set<int>) {
    && (forall x :: x in live ==> x in rep && rep[x] == x)
    && (forall a :: a in sitOf ==> sitOf[a] in live)
  }

  lemma AddPairReads(cross: Cross, sid: int, pair: Scored, sitOf: map<int, int>, a: int, b: int)
    requires Symmetric(cross) && a != b
    ensures Symmetric(AddPair(cross, sid, pair, sitOf))
    ensures At(AddPair(cross, sid, pair, sitOf), a, b) ==
            if pair.alarm in sitOf && sitOf[pair.alarm] != sid
               && ((a == sid && b == sitOf[pair.alarm]) || (b == sid && a == sitOf[pair.alarm]))
            then Plus(At(cross, a, b), Ev(pair.evidence, 1)) else At(cross, a, b)
  {
    assert (a, b) in cross ==> (b, a) in cross;
    assert (b, a) in cross ==> (a, b) in cross;
  }

  lemma TotalNote(notes: seq<Noted>, h: Noted, rep: map<int, int>, a: int, b: int)
    ensures Total(notes + [h], rep, a, b) ==
            if Between(h, rep, a, b) then Plus(Total(notes, rep, a, b), Ev(h.evidence, 1))
            else Total(notes, rep, a, b)
  {
    assert (notes + [h])[..|notes + [h]| - 1] == notes;
  }

  /** The pair is evidence between the situations `a` and `b`. */
  predicate Adds(sid: int, pair: Scored, sitOf: map<int, int>, rep: map<int, int>, a: int, b: int) {
    && pair.alarm in sitOf && sitOf[pair.alarm] != sid
    && Between(Noted(sid, sitOf[pair.alarm], pair.evidence), rep, a, b)
  }

  lemma AddPairAdds(cross: Cross, sid: int, pair: Scored, sitOf: map<int, int>,
                    rep: map<int, int>, live: set<int>, a: int, b: int)
    requires Symmetric(cross) && sid in live && Settled(sitOf, rep, live) && a != b
    ensures At(AddPair(cross, sid, pair, sitOf), a, b) ==
            if Adds(sid, pair, sitOf, rep, a, b) then Plus(At(cross, a, b), Ev(pair.evidence, 1)) else At(cross, a, b)
  {
    AddPairReads(cross, sid, pair, sitOf, a, b);
    assert Root(rep, sid) == sid;
    assert pair.alarm in sitOf ==> Root(rep, sitOf[pair.alarm]) == sitOf[pair.alarm];
  }

  lemma NotesAdds(sid: int, scored: seq<Scored>, sitOf: map<int, int>, rep: map<int, int>, a: int, b: int)
    requires scored != []
    ensures var before, pair := Notes(sid, scored[..|scored| - 1], sitOf), scored[|scored| - 1];
            Total(Notes(sid, scored, sitOf), rep, a, b) ==
            if Adds(sid, pair, sitOf, rep, a, b) then Plus(Total(before, rep, a, b), Ev(pair.evidence, 1))
            else Total(before, rep, a, b)
  {
    var pair := scored[|scored| - 1];
    if pair.alarm in sitOf && sitOf[pair.alarm] != sid {
      TotalNote(Notes(sid, scored[..|scored| - 1], sitOf), Noted(sid, sitOf[pair.alarm], pair.evidence), rep, a, b);
    }
  }

  lemma AddEntryLast(cross: Cross, sid: int, scored: seq<Scored>, sitOf: map<int, int>,
                     rep: map<int, int>, live: set<int>, a: int, b: int)
    requires Symmetric(cross) && sid in live && Settled(sitOf, rep, live) && a != b && scored != []
    requires var shorter := scored[..|scored| - 1];
             At(AddPairs(cross, sid, shorter, sitOf), a, b)
             == Plus(At(cross, a, b), Total(Notes(sid, shorter, sitOf), rep, a, b))
    ensures At(AddPairs(cross, sid, scored, sitOf), a, b) ==
            Plus(At(cross, a, b), Total(Notes(sid, scored, sitOf), rep, a, b))
  {
    hide Notes, Total, At, AddPair, Adds, Symmetric, Settled;
    var shorter := scored[..|scored| - 1];
    AddPairsSymmetric(cross, sid, shorter, sitOf);
    AddPairAdds(AddPairs(cross, sid, shorter, sitOf), sid, scored[|scored| - 1], sitOf, rep, live, a, b);
    NotesAdds(sid, scored, sitOf, rep, a, b);
  }

  lemma {:induction false} AddEntry(cross: Cross, sid: int, scored: seq<Scored>, sitOf: map<int, int>,
                                    rep: map<int, int>, live: set<int>, a: int, b: int)
    requires Symmetric(cross) && sid in live && Settled(sitOf, rep, live)
    requires a in live && b in live && a != b
    ensures At(AddPairs(cross, sid, scored, sitOf), a, b) ==
            Plus(At(cross, a, b), Total(Notes(sid, scored, sitOf), rep, a, b))
  {
    hide At, AddPair, Adds, Symmetric, Settled;
    if scored != [] {
      AddEntry(cross, sid, scored[..|scored| - 1], sitOf, rep, live, a, b);
      AddEntryLast(cross, sid, scored, sitOf, rep, live, a, b);
    }
  }

  lemma AddLive(cross: Cross, sid: int, scored: seq<Scored>, sitOf: map<int, int>,
                rep: map<int, int>, live: set<int>)
    requires forall p :: p in cross ==> p.0 in live && p.1 in live
    requires sid in live && Settled(sitOf, rep, live)
    ensures forall p :: p in AddPairs(cross, sid, scored, sitOf) ==> p.0 in live && p.1 in live
    ensures Witnessed(Notes(sid, scored, sitOf), rep)
  {
    if scored != [] {
      AddLive(cross, sid, scored[..|scored| - 1], sitOf, rep, live);
    }
  }

  lemma AddRemembers(cross: Cross, hist: seq<Noted>, rep: map<int, int>, live: set<int>,
                     sid: int, scored: seq<Scored>, sitOf: map<int, int>)
    requires Remembered(cross, hist, rep, live) && sid in live && Settled(sitOf, rep, live)
    ensures Remembered(AddPairs(cross, sid, scored, sitOf), hist + Notes(sid, scored, sitOf), rep, live)
  {
    AddPairsSymmetric(cross, sid, scored, sitOf);
    AddLive(cross, sid, scored, sitOf, rep, live);
    forall a, b | a in live && b in live && a != b
      ensures At(AddPairs(cross, sid, scored, sitOf), a, b)
              == Total(hist + Notes(sid, scored, sitOf), rep, a, b)
    {
      AddEntry(cross, sid, scored, sitOf, rep, live, a, b);
      TotalConcat(hist, Notes(sid, scored, sitOf), rep, a, b);
      assert At(cross, a, b) == Total(hist, rep, a, b);
    }
  }

  // ---------- the memory is complete throughout every run ----------

  ghost predicate Memory(y: System) {
    Remembered(y.cross, y.hist, y.s.rep, y.s.members.Keys)
  }

  lemma AbsorbRemembers(cross: Cross, hist: seq<Noted>, s: State, sid: int, other: int)
    requires InvFolding(s, Some(sid)) && sid in s.members
    requires Remembered(cross, hist, s.rep, s.members.Keys)
    requires other in s.members && other != sid
    ensures var t := Absorb(s, sid, other);
            Remembered(Fold(cross, sid, other), hist, t.rep, t.members.Keys)
  {
    FoldRemembers(cross, hist, s.rep, s.members.Keys, s.nextSid, sid, other);
    AbsorbSits(s, sid, other);
  }

  lemma FoldGone(cross: Cross, live: set<int>, dst: int, src: int)
    requires forall p :: p in cross ==> p.0 in live && p.1 in live
    requires src !in live
    ensures Fold(cross, dst, src) == cross
  {
    if dst != src {
      assert FoldKeys(cross, dst, src) == cross.Keys;
      forall p | p in cross
        ensures FoldAt(cross, dst, src, p.0, p.1) == cross[p]
      {
      }
    }
  }

  lemma AbsorbAllRemembers(cross: Cross, hist: seq<Noted>, s: State, sid: int, merge: seq<int>)
    requires InvFolding(s, Some(sid)) && sid in s.members && s.members.Keys == s.touched.Keys + {sid}
    requires Remembered(cross, hist, s.rep, s.members.Keys)
    ensures var t := AbsorbAll(s, sid, merge);
            Remembered(FoldAll(cross, sid, merge), hist, t.rep, t.members.Keys)
  {
    if merge != [] {
      var shorter := merge[..|merge| - 1];
      var other := merge[|merge| - 1];
      AbsorbAllRemembers(cross, hist, s, sid, shorter);
      AbsorbAllKeeps(s, sid, shorter);
      var before := AbsorbAll(s, sid, shorter);
      if other in before.members && other != sid {
        AbsorbRemembers(FoldAll(cross, sid, shorter), hist, before, sid, other);
      } else if other != sid {
        FoldGone(FoldAll(cross, sid, shorter), before.members.Keys, sid, other);
      }
    }
  }

  lemma LandingRemembers(cross: Cross, hist: seq<Noted>, s: State, alarm: int, p: Placement)
    requires Inv(s) && Remembered(cross, hist, s.rep, s.members.Keys)
    ensures var t := Open(s, alarm, p); Remembered(cross, hist, t.rep, t.members.Keys)
  {
    OpenKeeps(s, alarm, p);
    if !Joins(s, p) {
      OpenRemembers(cross, hist, s.rep, s.members.Keys, s.nextSid);
    } else {
      assert Open(s, alarm, p).members.Keys == s.members.Keys;
    }
  }

  lemma FoldingRemembers(cross: Cross, hist: seq<Noted>, s: State, act: Activation, p: Placement)
    requires Inv(s) && Remembered(cross, hist, s.rep, s.members.Keys)
    ensures var t := PlaceStep(s, act, p);
            Remembered(FoldAll(cross, Target(s, p), p.merge), hist, t.rep, t.members.Keys)
  {
    var sid := Target(s, p);
    var landing := Open(s, act.alarm, p);
    OpenKeeps(s, act.alarm, p);
    LandingRemembers(cross, hist, s, act.alarm, p);
    AbsorbAllRemembers(cross, hist, landing, sid, p.merge);
    AbsorbAllKeeps(landing, sid, p.merge);
    assert PlaceStep(s, act, p).members.Keys == AbsorbAll(landing, sid, p.merge).members.Keys;
  }

  lemma PlaceRemembers(cfg: Config, y: System, act: Activation, scored: seq<Scored>)
    requires cfg.mode.Cluster? && Inv(y.s) && Memory(y)
    ensures Memory(RaiseStep(cfg, y, act, scored))
  {
    var p := PlacementOf(cfg, y.s, y.cross, act, scored);
    var sid := Target(y.s, p);
    var t := PlaceStep(y.s, act, p);
    FoldingRemembers(y.cross, y.hist, y.s, act, p);
    RaiseKeeps(cfg, y, act, scored);
    PlacementAnswers(cfg, y.s, y.cross, act, scored);
    PlaceRecords(y.s, act, p);
    AddRemembers(FoldAll(y.cross, sid, p.merge), y.hist, t.rep, t.members.Keys, sid, scored, t.sitOf);
  }

  lemma ReadyRemembers(cfg: Config, y: System, ts: real)
    requires Memory(y)
    ensures Memory(Ready(cfg, y, ts))
  {
    var dead := Expired(y.s, ts, cfg.hold);
    var held := ExpireStep(y.s, ts, cfg.hold);
    ForgetRemembers(y.cross, y.hist, y.s.rep, y.s.members.Keys, dead);
    assert held.members.Keys == y.s.members.Keys - dead;
    ForgetRemembers(Forget(y.cross, dead), y.hist, held.rep, held.members.Keys, Idle(held, ts));
    PrepareRoots(y.s, ts, cfg.hold);
    hide Remembered, SweepStep, ExpireStep;
  }

  lemma ClearRemembers(cfg: Config, y: System, alarm: int, at: real)
    requires Memory(y)
    ensures Memory(Advance(cfg, y, Cleared(alarm, at)))
  {
    ForgetRemembers(y.cross, y.hist, y.s.rep, y.s.members.Keys, ClearCloses(y.s, alarm, cfg.hold));
    ClearRoots(y.s, alarm, at, cfg.hold);
    hide ClearStep, Remembered;
  }

  /** In cluster mode, at every moment of every stream, the evidence the grouper keeps between two
      open situations is the evidence of every pair ever scored across what they have become. */
  lemma {:induction false} EvidenceIsComplete(cfg: Config, ops: seq<Op>)
    requires cfg.mode.Cluster?
    ensures Memory(Replayed(cfg, ops))
  {
    if ops != [] {
      var y := Replayed(cfg, ops[..|ops| - 1]);
      EvidenceIsComplete(cfg, ops[..|ops| - 1]);
      ReplayedKeeps(cfg, ops[..|ops| - 1]);
      match ops[|ops| - 1]
      case Cleared(alarm, at) => ClearRemembers(cfg, y, alarm, at);
      case Raised(act, scored) =>
        ReadyRemembers(cfg, y, act.ts);
        PrepareKeeps(y.s, act.ts, cfg.hold);
        PlaceRemembers(cfg, Ready(cfg, y, act.ts), act, scored);
    }
  }

  lemma KeptIsTotal(s: State, cross: Cross, hist: seq<Noted>, own: Option<int>, p: Placement, scored: seq<Scored>,
                    other: int)
    requires Inv(s) && Remembered(cross, hist, s.rep, s.members.Keys) && Answers(p, s.sitOf, own)
    requires p.join.Some? && other != p.join.value && Weight(scored, s.sitOf, other).pairs > 0
    ensures At(cross, p.join.value, other) == Total(hist, s.rep, p.join.value, other)
  {
    hide Weight, Total, At, Rooted, Recorded, Followed, Burning, Judged;
    var a :| a in s.sitOf && s.sitOf[a] == p.join.value;
    WeightIsPlaced(scored, s.sitOf, other);
    var b :| b in s.sitOf && s.sitOf[b] == other;
    assert p.join.value in s.members && other in s.members;
  }

  /** So a merge is never decided on a sample: in cluster mode an activation folds a situation into
      the one it joins if and only if it was scored against it and the evidence of all pairs ever
      scored across the two - this activation's included - is on at least `mergeMinPairs` pairs with
      a mean above the merge bias. */
  lemma MergeWeighsEverything(cfg: Config, ops: seq<Op>, act: Activation, scored: seq<Scored>, other: int)
    requires cfg.mode.Cluster?
    ensures var y := Ready(cfg, Replayed(cfg, ops), act.ts);
            var p := PlacementOf(cfg, y.s, y.cross, act, scored);
            other in p.merge <==>
            && p.join.Some? && other != p.join.value
            && Weight(scored, y.s.sitOf, other).pairs > 0
            && var kept, w := Total(y.hist, y.s.rep, p.join.value, other), Weight(scored, y.s.sitOf, other);
               var sum, pairs := kept.sum + w.sum, kept.pairs + w.pairs;
               pairs > 0 && pairs >= cfg.params.mergeMinPairs && sum > cfg.params.mergeBias * pairs as real
  {
    hide Inv, Remembered, PlacementOf, PlaceCluster, Answers, Weight, Total, At, Replayed;
    hide Forget, ExpireStep, SweepStep;
    var z := Replayed(cfg, ops);
    var y := Ready(cfg, z, act.ts);
    var p, own := PlacementOf(cfg, y.s, y.cross, act, scored), Get(y.s.sitOf, act.alarm);
    EvidenceIsComplete(cfg, ops);
    ReplayedKeeps(cfg, ops);
    ReadyRemembers(cfg, z, act.ts);
    PrepareKeeps(z.s, act.ts, cfg.hold);
    PlacementAnswers(cfg, y.s, y.cross, act, scored);
    ClusterAnswer(cfg, y.s, y.cross, act, scored);
    ClusterMerge(cfg.params, y.cross, scored, y.s.sitOf, own, other);
    if p.join.Some? && other != p.join.value && Weight(scored, y.s.sitOf, other).pairs > 0 {
      KeptIsTotal(y.s, y.cross, y.hist, own, p, scored, other);
    }
  }

  lemma ClusterAnswer(cfg: Config, s: State, cross: Cross, act: Activation, scored: seq<Scored>)
    requires cfg.mode.Cluster?
    ensures PlacementOf(cfg, s, cross, act, scored)
            == PlaceCluster(cfg.params, cross, scored, s.sitOf, Get(s.sitOf, act.alarm))
  {
  }

  /** What an activation that landed in `sid` puts on record: every scored pair whose other alarm is placed
      elsewhere, in order and each once. */
  lemma {:induction false} NotesTell(sid: int, scored: seq<Scored>, sitOf: map<int, int>) returns (at: seq<nat>)
    ensures forall i, j :: 0 <= i < j < |at| ==> at[i] < at[j]
    ensures forall i: nat :: i in at <==> i < |scored| && scored[i].alarm in sitOf && sitOf[scored[i].alarm] != sid
    ensures |Notes(sid, scored, sitOf)| == |at|
    ensures forall k :: 0 <= k < |at| ==>
              at[k] in at && Notes(sid, scored, sitOf)[k]
                             == Noted(sid, sitOf[scored[at[k]].alarm], scored[at[k]].evidence)
  {
    at := [];
    if scored != [] {
      var n := |scored| - 1;
      at := NotesTell(sid, scored[..n], sitOf);
      assert forall k :: 0 <= k < |at| ==> at[k] in at;
      if scored[n].alarm in sitOf && sitOf[scored[n].alarm] != sid {
        at := at + [n];
      }
    }
  }
}
