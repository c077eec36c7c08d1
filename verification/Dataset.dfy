/**
 The labelled pairs of `eval/synth/dataset.py`: each activation's known candidates, sampled per class
 and weighted so that the activation weighs one unit, and a time-ordered split by incident.
 */
module Dataset {
  import opened Wrappers

  type Vec = seq<real>

  datatype Candidate = Candidate(other: int, vec: Vec)

  datatype Activation = Activation(alarm: int, incident: string, family: string, ts: real, candidates: seq<Candidate>)

  datatype Log = Log(name: string, acts: seq<Activation>)

  datatype Row = Row(x: Vec, y: int, w: real, stream: string, incident: string, family: string, ts: real)

  /** A fraction of the stream's span. */
  type Window = (real, real)

  /** What the generator's `sample` does at each draw: so many distinct positions of the list. */
  type Sampler = (nat, seq<Vec>, nat) -> seq<Vec>

  ghost predicate Samples(pick: Sampler) {
    forall tick: nat, group: seq<Vec>, n: nat {:trigger pick(tick, group, n)} :: n <= |group| ==>
      |pick(tick, group, n)| == n && forall v :: v in pick(tick, group, n) ==> v in group
  }

  // ---------- weights ----------

  function Mass(rows: seq<Row>): real {
    if rows == [] then 0.0 else Mass(rows[..|rows| - 1]) + rows[|rows| - 1].w
  }

  /** The weight of the rows with one label. */
  function MassOf(rows: seq<Row>, y: int): real {
    if rows == [] then 0.0
    else
      var last := rows[|rows| - 1];
      MassOf(rows[..|rows| - 1], y) + if last.y == y then last.w else 0.0
  }

  lemma {:induction false} MassJoins(a: seq<Row>, b: seq<Row>)
    ensures Mass(a + b) == Mass(a) + Mass(b)
    ensures forall y :: MassOf(a + b, y) == MassOf(a, y) + MassOf(b, y)
  {
    if b == [] {
      assert a + b == a;
    } else {
      var rest := b[..|b| - 1];
      assert (a + b)[..|a + b| - 1] == a + rest;
      MassJoins(a, rest);
    }
  }

  /** The vectors of the candidates whose incident is known and is, or is not, the activation's own. */
  function Class(act: Activation, truth: map<int, string>, candidates: seq<Candidate>, same: bool): seq<Vec> {
    if candidates == [] then []
    else
      var last := candidates[|candidates| - 1];
      var before := Class(act, truth, candidates[..|candidates| - 1], same);
      if last.other in truth && (truth[last.other] == act.incident) == same then before + [last.vec] else before
  }

  function Kept(n: nat, perClass: nat): nat {
    if n <= perClass then n else perClass
  }

  /** The weight of one kept row of a class of `n` candidates among `total`: the kept ones weigh `n / total`. */
  function RowWeight(n: nat, perClass: nat, total: nat): (w: real)
    requires n > 0 && perClass > 0 && total > 0
    ensures w > 0.0 && Kept(n, perClass) as real * w == n as real / total as real
  {
    assert n as real / Kept(n, perClass) as real > 0.0;
    Share(Kept(n, perClass) as real, n as real, total as real);
    (n as real / Kept(n, perClass) as real) / total as real
  }

  /** A row of an activation from one class of its candidates: it carries the class's label and weighs as much
      as the other kept ones, which together weigh the class's share. */
  ghost predicate IsRow(r: Row, act: Activation, stream: string, y: int, group: seq<Vec>, kept: nat, total: nat)
    requires total > 0
  {
    && r.y == y && r.stream == stream && r.incident == act.incident && r.family == act.family && r.ts == act.ts
    && r.x in group && r.w > 0.0 && kept as real * r.w == |group| as real / total as real
  }

  /** What sampling a class leaves: all of its vectors, or else as many as are wanted, those drawn; all of the
      same positive weight, together weighing the class's share of the activation. */
  ghost predicate Drawn(rows: seq<Row>, act: Activation, stream: string, group: seq<Vec>, y: int, perClass: nat,
                        total: nat, tick: nat, pick: Sampler)
    requires perClass > 0 && total > 0
  {
    && (|group| <= perClass ==> Vecs(rows) == group)
    && (|group| > perClass ==> |rows| == perClass && Vecs(rows) == pick(tick, group, perClass))
    && Mass(rows) == MassOf(rows, y) == |group| as real / total as real
    && forall r :: r in rows ==> IsRow(r, act, stream, y, group, |rows|, total)
  }

  function Vecs(rows: seq<Row>): seq<Vec> {
    seq(|rows|, i requires 0 <= i < |rows| => rows[i].x)
  }

  predicate Labelled(r: Row, act: Activation, stream: string, y: int, w: real) {
    r == Row(r.x, y, w, stream, act.incident, act.family, act.ts)
  }

  /** `out.append(Row(...))` for each kept vector. */
  method Append(act: Activation, stream: string, kept: seq<Vec>, y: int, weight: real) returns (rows: seq<Row>)
    ensures Vecs(rows) == kept && forall r :: r in rows ==> Labelled(r, act, stream, y, weight)
  {
    rows := [];
    for i := 0 to |kept|
      invariant Vecs(rows) == kept[..i]
      invariant forall r :: r in rows ==> Labelled(r, act, stream, y, weight)
    {
      rows := rows + [Row(kept[i], y, weight, stream, act.incident, act.family, act.ts)];
    }
  }

  method Draw(act: Activation, stream: string, group: seq<Vec>, y: int, perClass: nat, total: nat, tick: nat,
              pick: Sampler) returns (rows: seq<Row>)
    requires perClass > 0 && total > 0 && Samples(pick)
    ensures Drawn(rows, act, stream, group, y, perClass, total, tick, pick)
  {
    hide IsRow, Labelled, Mass, MassOf, Samples;
    if group == [] {
      NoMass(y);
      return [];
    }
    var kept := if |group| <= perClass then group else Picked(tick, group, perClass, pick);
    var weight := RowWeight(|group|, perClass, total);
    rows := Append(act, stream, kept, y, weight);
    assert |rows| == |Vecs(rows)|;
    Weighed(rows, act, stream, group, y, total, weight);
  }

  lemma Weighed(rows: seq<Row>, act: Activation, stream: string, group: seq<Vec>, y: int, total: nat, weight: real)
    requires total > 0 && weight > 0.0 && |rows| as real * weight == |group| as real / total as real
    requires forall r :: r in rows ==> Labelled(r, act, stream, y, weight)
    requires forall x :: x in Vecs(rows) ==> x in group
    ensures Mass(rows) == MassOf(rows, y) == |group| as real / total as real
    ensures forall r :: r in rows ==> IsRow(r, act, stream, y, group, |rows|, total)
  {
    hide Mass, MassOf, IsRow;
    Uniform(rows, y, weight);
    forall r | r in rows
      ensures IsRow(r, act, stream, y, group, |rows|, total)
    {
      var i :| 0 <= i < |rows| && rows[i] == r;
      assert Vecs(rows)[i] == r.x;
      WeighedRow(r, act, stream, group, y, |rows|, total, weight);
    }
  }

  lemma WeighedRow(r: Row, act: Activation, stream: string, group: seq<Vec>, y: int, kept: nat, total: nat,
                   weight: real)
    requires total > 0 && weight > 0.0 && kept as real * weight == |group| as real / total as real
    requires Labelled(r, act, stream, y, weight) && r.x in group
    ensures IsRow(r, act, stream, y, group, kept, total)
  {
  }

  function Picked(tick: nat, group: seq<Vec>, n: nat, pick: Sampler): (picked: seq<Vec>)
    requires Samples(pick) && n <= |group|
    ensures picked == pick(tick, group, n) && |picked| == n && forall v :: v in picked ==> v in group
  {
    pick(tick, group, n)
  }

  lemma NoMass(y: int)
    ensures Mass([]) == MassOf([], y) == 0.0
  {
  }

  lemma {:induction false} Uniform(rows: seq<Row>, y: int, w: real)
    requires forall r :: r in rows ==> r.y == y && r.w == w
    ensures Mass(rows) == MassOf(rows, y) == |rows| as real * w
  {
    if rows != [] {
      assert rows[|rows| - 1] in rows;
      Uniform(rows[..|rows| - 1], y, w);
    }
  }

  lemma Share(kept: real, all: real, total: real)
    requires kept > 0.0 && total > 0.0
    ensures kept * ((all / kept) / total) == all / total
  {
    assert kept * (all / kept) == all;
    var part := all / kept;
    assert kept * (part / total) == (kept * part) / total;
  }

  /** What an activation's rows are: nothing without a known candidate; otherwise one unit of weight, of
      which each class has its share of the candidates, the rows of its own incident first. */
  ghost predicate Sampled(rows: seq<Row>, act: Activation, truth: map<int, string>, stream: string, perClass: nat) {
    var pos, neg := Class(act, truth, act.candidates, true), Class(act, truth, act.candidates, false);
    && (|pos| + |neg| == 0 ==> rows == [])
    && (|pos| + |neg| > 0 ==> Mass(rows) == 1.0 && Split(rows, act, stream, pos, neg, perClass))
  }

  /** The rows of the two classes, one after the other: so many of each, all of a small class and of a large
      one only members. */
  ghost predicate Split(rows: seq<Row>, act: Activation, stream: string, pos: seq<Vec>, neg: seq<Vec>, perClass: nat)
    requires |pos| + |neg| > 0
  {
    var p := if |pos| <= perClass then |pos| else perClass;
    var n := if |neg| <= perClass then |neg| else perClass;
    var total := |pos| + |neg|;
    && |rows| == p + n
    && MassOf(rows, 1) == |pos| as real / total as real && MassOf(rows, 0) == |neg| as real / total as real
    && (forall i :: 0 <= i < p ==>
          IsRow(rows[i], act, stream, 1, pos, p, total) && (|pos| <= perClass ==> rows[i].x == pos[i]))
    && (forall i :: p <= i < p + n ==>
          IsRow(rows[i], act, stream, 0, neg, n, total) && (|neg| <= perClass ==> rows[i].x == neg[i - p]))
  }

  /** The weight a label gets from rows of one label. */
  lemma {:induction false} OtherLabel(rows: seq<Row>, y: int, z: int)
    requires y != z && forall r :: r in rows ==> r.y == y
    ensures MassOf(rows, z) == 0.0
  {
    if rows != [] {
      assert rows[|rows| - 1] in rows;
      OtherLabel(rows[..|rows| - 1], y, z);
    }
  }

  method Classes(act: Activation, truth: map<int, string>) returns (pos: seq<Vec>, neg: seq<Vec>)
    ensures pos == Class(act, truth, act.candidates, true)
    ensures neg == Class(act, truth, act.candidates, false)
  {
    pos, neg := [], [];
    for i := 0 to |act.candidates|
      invariant pos == Class(act, truth, act.candidates[..i], true)
      invariant neg == Class(act, truth, act.candidates[..i], false)
    {
      var c := act.candidates[i];
      assert act.candidates[..i + 1][..i] == act.candidates[..i];
      if c.other in truth {
        if truth[c.other] == act.incident {
          pos := pos + [c.vec];
        } else {
          neg := neg + [c.vec];
        }
      }
    }
    assert act.candidates[..|act.candidates|] == act.candidates;
  }

  /** `_sample`, returning the rows it appends. */
  method Sample(act: Activation, truth: map<int, string>, stream: string, perClass: nat, tick: nat, pick: Sampler)
    returns (rows: seq<Row>)
    requires perClass > 0 && Samples(pick)
    ensures Sampled(rows, act, truth, stream, perClass)
  {
    var pos, neg := Classes(act, truth);
    var total := |pos| + |neg|;
    rows := [];
    if total == 0 {
      return;
    }
    var p := Draw(act, stream, pos, 1, perClass, total, tick, pick);
    var n := Draw(act, stream, neg, 0, perClass, total, tick + |p|, pick);
    BothMasses(act, stream, pos, neg, perClass, tick, pick, p, n);
    BothDrawn(act, stream, pos, neg, perClass, tick, pick, p, n);
    rows := p + n;
  }

  lemma BothMasses(act: Activation, stream: string, pos: seq<Vec>, neg: seq<Vec>, perClass: nat, tick: nat,
                   pick: Sampler, p: seq<Row>, n: seq<Row>)
    requires perClass > 0 && |pos| + |neg| > 0
    requires Drawn(p, act, stream, pos, 1, perClass, |pos| + |neg|, tick, pick)
    requires Drawn(n, act, stream, neg, 0, perClass, |pos| + |neg|, tick + |p|, pick)
    ensures Mass(p + n) == 1.0
    ensures MassOf(p + n, 1) == |pos| as real / (|pos| + |neg|) as real
    ensures MassOf(p + n, 0) == |neg| as real / (|pos| + |neg|) as real
  {
    hide Mass, MassOf, Vecs;
    assert forall r :: r in p ==> IsRow(r, act, stream, 1, pos, |p|, |pos| + |neg|);
    assert forall r :: r in n ==> IsRow(r, act, stream, 0, neg, |n|, |pos| + |neg|);
    OtherLabel(p, 1, 0);
    OtherLabel(n, 0, 1);
    MassJoins(p, n);
    Whole(|pos|, |neg|);
  }

  lemma BothDrawn(act: Activation, stream: string, pos: seq<Vec>, neg: seq<Vec>, perClass: nat, tick: nat,
                  pick: Sampler, p: seq<Row>, n: seq<Row>)
    requires perClass > 0 && |pos| + |neg| > 0
    requires Drawn(p, act, stream, pos, 1, perClass, |pos| + |neg|, tick, pick)
    requires Drawn(n, act, stream, neg, 0, perClass, |pos| + |neg|, tick + |p|, pick)
    requires MassOf(p + n, 1) == |pos| as real / (|pos| + |neg|) as real
    requires MassOf(p + n, 0) == |neg| as real / (|pos| + |neg|) as real
    ensures Split(p + n, act, stream, pos, neg, perClass)
  {
    hide Mass, MassOf, IsRow;
    forall i | 0 <= i < |p|
      ensures p[i] in p && p[i].x == Vecs(p)[i] && (p + n)[i] == p[i]
    {
    }
    forall i | |p| <= i < |p| + |n|
      ensures n[i - |p|] in n && n[i - |p|].x == Vecs(n)[i - |p|] && (p + n)[i] == n[i - |p|]
    {
    }
  }

  lemma Whole(p: nat, n: nat)
    requires p + n > 0
    ensures p as real / (p + n) as real + n as real / (p + n) as real == 1.0
  {
  }

  // ---------- the time-ordered split ----------

  /** The first activation of an incident, if it has one. */
  function First(acts: seq<Activation>, incident: string): Option<real> {
    if acts == [] then None
    else if acts[0].incident == incident then Some(acts[0].ts)
    else First(acts[1..], incident)
  }

  function Edges(acts: seq<Activation>, window: Window): (real, real)
    requires acts != []
  {
    var start, end := acts[0].ts, acts[|acts| - 1].ts;
    var span := if end - start < 1.0 then 1.0 else end - start;
    (start + span * window.0, start + span * window.1)
  }

  /** An incident is on a window's side when its first activation falls inside. */
  predicate Side(acts: seq<Activation>, window: Window, incident: string)
    requires acts != [] && First(acts, incident) != None
  {
    Edges(acts, window).0 <= First(acts, incident).value <= Edges(acts, window).1
  }

  lemma {:induction false} FirstGrows(acts: seq<Activation>, act: Activation, incident: string)
    ensures First(acts + [act], incident) ==
            if First(acts, incident) != None then First(acts, incident)
            else if act.incident == incident then Some(act.ts) else None
  {
    if acts != [] {
      assert (acts + [act])[1..] == acts[1..] + [act];
      FirstGrows(acts[1..], act, incident);
    }
  }

  lemma {:induction false} FirstOfMember(acts: seq<Activation>, i: nat)
    requires i < |acts|
    ensures First(acts, acts[i].incident) != None
  {
    if i > 0 && acts[0].incident != acts[i].incident {
      FirstOfMember(acts[1..], i - 1);
    }
  }

  /** Where an incident comes first. */
  ghost predicate FirstAt(acts: seq<Activation>, incident: string, i: nat) {
    i < |acts| && acts[i].incident == incident && forall j :: 0 <= j < i ==> acts[j].incident != incident
  }

  lemma {:induction false} FirstTells(acts: seq<Activation>, incident: string, i: nat)
    requires FirstAt(acts, incident, i)
    ensures First(acts, incident) == Some(acts[i].ts)
  {
    if i > 0 {
      assert forall j :: 0 <= j < |acts| - 1 ==> acts[1..][j] == acts[j + 1];
      FirstTells(acts[1..], incident, i - 1);
    }
  }

  lemma {:induction false} FirstFound(acts: seq<Activation>, incident: string) returns (i: nat)
    requires First(acts, incident) != None
    ensures FirstAt(acts, incident, i)
  {
    if acts[0].incident == incident {
      i := 0;
    } else {
      i := FirstFound(acts[1..], incident);
      i := i + 1;
      assert forall j :: 0 < j < |acts| ==> acts[j] == acts[1..][j - 1];
    }
  }

  /** `incident_side`, told from the activations: the window's edges lie at its fractions of the time from the
      first activation to the last, taken as a second when it is shorter, and an incident is in when its own
      first activation lies between them, the edges included. */
  method IncidentSide(acts: seq<Activation>, window: Window) returns (side: map<string, bool>)
    requires acts != []
    ensures forall incident :: incident in side <==> exists i: nat :: i < |acts| && acts[i].incident == incident
    ensures var start, end := acts[0].ts, acts[|acts| - 1].ts;
            var span := if end - start < 1.0 then 1.0 else end - start;
            var from, to := start + span * window.0, start + span * window.1;
            forall incident, i: nat :: FirstAt(acts, incident, i) ==>
              incident in side && (side[incident] <==> from <= acts[i].ts <= to)
    ensures forall incident :: incident in side <==> First(acts, incident) != None
    ensures forall incident :: incident in side ==> side[incident] == Side(acts, window, incident)
  {
    side := Sides(acts, window);
    forall incident
      ensures incident in side <==> exists i: nat :: i < |acts| && acts[i].incident == incident
    {
      Occurs(acts, incident);
    }
    hide Edges;
    EdgesAre(acts, window);
    forall incident, i: nat | FirstAt(acts, incident, i)
      ensures incident in side
      ensures side[incident] <==> Edges(acts, window).0 <= acts[i].ts <= Edges(acts, window).1
    {
      FirstTells(acts, incident, i);
    }
  }

  lemma EdgesAre(acts: seq<Activation>, window: Window)
    requires acts != []
    ensures var start, end := acts[0].ts, acts[|acts| - 1].ts;
            var span := if end - start < 1.0 then 1.0 else end - start;
            && Edges(acts, window).0 == start + span * window.0
            && Edges(acts, window).1 == start + span * window.1
  {
  }

  lemma Occurs(acts: seq<Activation>, incident: string)
    ensures First(acts, incident) != None <==> exists i: nat :: i < |acts| && acts[i].incident == incident
  {
    if First(acts, incident) != None {
      var i := FirstFound(acts, incident);
    }
    if i: nat :| i < |acts| && acts[i].incident == incident {
      FirstOfMember(acts, i);
    }
  }

  method Sides(acts: seq<Activation>, window: Window) returns (side: map<string, bool>)
    requires acts != []
    ensures forall incident :: incident in side <==> First(acts, incident) != None
    ensures forall incident :: incident in side ==> side[incident] == Side(acts, window, incident)
  {
    hide Edges;
    var edges := Edges(acts, window);
    var first: map<string, real> := map[];
    for i := 0 to |acts|
      invariant forall incident :: Get(first, incident) == First(acts[..i], incident)
    {
      ghost var was := first;
      if acts[i].incident !in first {
        first := first[acts[i].incident := acts[i].ts];
      }
      assert acts[..i + 1] == acts[..i] + [acts[i]];
      forall incident
        ensures Get(first, incident) == First(acts[..i + 1], incident)
      {
        FirstGrows(acts[..i], acts[i], incident);
        assert Get(was, incident) == First(acts[..i], incident);
      }
    }
    assert acts[..|acts|] == acts;
    side := map incident | incident in first :: edges.0 <= first[incident] <= edges.1;
    forall incident
      ensures incident in side <==> First(acts, incident) != None
      ensures incident in side ==> side[incident] == Side(acts, window, incident)
    {
      assert Get(first, incident) == First(acts, incident);
    }
  }

  // ---------- all the rows ----------

  /** The incident each alarm last belonged to, as the loop over activations knows it. */
  function TruthOf(acts: seq<Activation>): map<int, string> {
    if acts == [] then map[]
    else TruthOf(acts[..|acts| - 1])[acts[|acts| - 1].alarm := acts[|acts| - 1].incident]
  }

  /** The last of the first `n` activations that an alarm had. */
  ghost predicate LastBefore(acts: seq<Activation>, n: nat, alarm: int, j: nat) {
    j < n <= |acts| && acts[j].alarm == alarm && forall k :: j < k < n ==> acts[k].alarm != alarm
  }

  /** What is known before an activation: of every alarm seen by then, the incident of its latest one. */
  lemma {:induction false} TruthTells(acts: seq<Activation>, n: nat, alarm: int)
    requires n <= |acts|
    ensures alarm in TruthOf(acts[..n]) <==> exists j: nat :: j < n && acts[j].alarm == alarm
    ensures forall j: nat :: LastBefore(acts, n, alarm, j) ==> Get(TruthOf(acts[..n]), alarm) == Some(acts[j].incident)
    ensures alarm in TruthOf(acts[..n]) ==> exists j: nat :: LastBefore(acts, n, alarm, j)
  {
    hide LastBefore;
    if n > 0 {
      TruthTells(acts, n - 1, alarm);
      TruthMoves(acts, n, alarm);
      forall j: nat
        ensures LastBefore(acts, n, alarm, j) <==>
                if acts[n - 1].alarm == alarm then j == n - 1 else LastBefore(acts, n - 1, alarm, j)
      {
        LatestMoves(acts, n, alarm, j);
      }
      if j: nat :| j < n - 1 && acts[j].alarm == alarm {
        assert j < n;
      }
      if acts[n - 1].alarm == alarm {
        assert LastBefore(acts, n, alarm, n - 1);
      } else if alarm in TruthOf(acts[..n - 1]) {
        var j: nat :| LastBefore(acts, n - 1, alarm, j);
        assert LastBefore(acts, n, alarm, j);
      }
    } else {
      NoneBefore(acts, alarm);
    }
  }

  lemma NoneBefore(acts: seq<Activation>, alarm: int)
    ensures alarm !in TruthOf(acts[..0]) && forall j: nat :: !LastBefore(acts, 0, alarm, j)
  {
  }

  lemma TruthMoves(acts: seq<Activation>, n: nat, alarm: int)
    requires 0 < n <= |acts|
    ensures Get(TruthOf(acts[..n]), alarm)
            == if acts[n - 1].alarm == alarm then Some(acts[n - 1].incident) else Get(TruthOf(acts[..n - 1]), alarm)
  {
    assert acts[..n][..n - 1] == acts[..n - 1];
  }

  lemma LatestMoves(acts: seq<Activation>, n: nat, alarm: int, j: nat)
    requires 0 < n <= |acts|
    ensures LastBefore(acts, n, alarm, j) <==>
            if acts[n - 1].alarm == alarm then j == n - 1 else LastBefore(acts, n - 1, alarm, j)
  {
  }

  /** Whether an activation yields pairs: it is on the side trained on, and a candidate was seen before. */
  ghost predicate Trains(log: Log, window: Option<Window>, i: nat)
    requires i < |log.acts|
  {
    var act := log.acts[i];
    FirstOfMember(log.acts, i);
    && (window == None || Side(log.acts, window.value, act.incident))
    && exists c, j: nat :: c in act.candidates && j < i && log.acts[j].alarm == c.other
  }

  /** How many of the first `n` activations of a stream yield pairs. */
  ghost function Trained(log: Log, window: Option<Window>, n: nat): nat
    requires n <= |log.acts|
  {
    if n == 0 then 0 else Trained(log, window, n - 1) + if Trains(log, window, n - 1) then 1 else 0
  }

  ghost function TrainedIn(logs: seq<Log>, window: Option<Window>): nat {
    if logs == [] then 0
    else
      var last := logs[|logs| - 1];
      TrainedIn(logs[..|logs| - 1], window) + Trained(last, window, |last.acts|)
  }

  lemma {:induction false} NoClass(act: Activation, truth: map<int, string>, candidates: seq<Candidate>)
    ensures |Class(act, truth, candidates, true)| + |Class(act, truth, candidates, false)| == 0
            <==> forall c :: c in candidates ==> c.other !in truth
  {
    if candidates != [] {
      var rest, last := candidates[..|candidates| - 1], candidates[|candidates| - 1];
      assert candidates == rest + [last];
      NoClass(act, truth, rest);
    }
  }

  /** Which of the candidates are known and of the activation's own incident, or known and of another. */
  function ClassAt(act: Activation, truth: map<int, string>, candidates: seq<Candidate>, same: bool): (at: seq<nat>)
    ensures forall i: nat :: i in at <==>
              && i < |candidates| && candidates[i].other in truth
              && (truth[candidates[i].other] == act.incident <==> same)
    ensures forall i, j :: 0 <= i < j < |at| ==> at[i] < at[j]
  {
    if candidates == [] then []
    else
      var n := |candidates| - 1;
      var before := ClassAt(act, truth, candidates[..n], same);
      assert forall i :: 0 <= i < |before| ==> before[i] in before;
      if candidates[n].other in truth && (truth[candidates[n].other] == act.incident) == same then before + [n]
      else before
  }

  lemma {:induction false} ClassIs(act: Activation, truth: map<int, string>, candidates: seq<Candidate>, same: bool)
    ensures var class_, at := Class(act, truth, candidates, same), ClassAt(act, truth, candidates, same);
            && |class_| == |at|
            && forall i :: 0 <= i < |at| ==> at[i] < |candidates| && class_[i] == candidates[at[i]].vec
  {
    ClassGrows(act, truth, candidates, same);
    hide Class, ClassAt;
    if candidates != [] {
      var n := |candidates| - 1;
      var rest := candidates[..n];
      ClassIs(act, truth, rest, same);
      var class_, at := Class(act, truth, rest, same), ClassAt(act, truth, rest, same);
      forall i | 0 <= i < |at|
        ensures at[i] < n && class_[i] == candidates[at[i]].vec
      {
        assert rest[at[i]] == candidates[at[i]];
      }
    }
  }

  lemma ClassGrows(act: Activation, truth: map<int, string>, candidates: seq<Candidate>, same: bool)
    ensures candidates == [] ==>
              Class(act, truth, candidates, same) == [] && ClassAt(act, truth, candidates, same) == []
    ensures candidates != [] ==>
              var n, last := |candidates| - 1, candidates[|candidates| - 1];
              var rest, counts := candidates[..n], last.other in truth && (truth[last.other] == act.incident) == same;
              && Class(act, truth, candidates, same)
                 == Class(act, truth, rest, same) + (if counts then [last.vec] else [])
              && ClassAt(act, truth, candidates, same)
                 == ClassAt(act, truth, rest, same) + (if counts then [n] else [])
  {
  }

  /** A class holds the vectors of the candidates that are known and are, or are not, of the activation's own
      incident, and no others, in their order. */
  lemma ClassTells(act: Activation, truth: map<int, string>, candidates: seq<Candidate>, same: bool)
    returns (at: seq<nat>)
    ensures forall i: nat :: i in at <==>
              && i < |candidates| && candidates[i].other in truth
              && (truth[candidates[i].other] == act.incident <==> same)
    ensures forall i, j :: 0 <= i < j < |at| ==> at[i] < at[j]
    ensures |Class(act, truth, candidates, same)| == |at|
    ensures forall i :: 0 <= i < |at| ==>
              at[i] in at && Class(act, truth, candidates, same)[i] == candidates[at[i]].vec
  {
    hide Class;
    at := ClassAt(act, truth, candidates, same);
    ClassIs(act, truth, candidates, same);
    assert forall i :: 0 <= i < |at| ==> at[i] in at;
  }

  /** A row tells the pair it comes from: the activation it stands for and one of its candidates, labelled by
      whether the candidate's alarm last belonged to the same incident. */
  ghost predicate FromPair(r: Row, acts: seq<Activation>, i: nat, c: Candidate, j: nat) {
    && i < |acts| && c in acts[i].candidates && LastBefore(acts, i, c.other, j)
    && r.x == c.vec && r.incident == acts[i].incident && r.family == acts[i].family && r.ts == acts[i].ts
    && r.y == if acts[j].incident == acts[i].incident then 1 else 0
  }

  /** A row comes from a stream, with an incident on the side trained on, and weighs something. */
  ghost predicate FromLog(r: Row, log: Log, window: Option<Window>) {
    && r.stream == log.name && r.w > 0.0
    && (exists i, c, j :: FromPair(r, log.acts, i, c, j))
    && First(log.acts, r.incident) != None && log.acts != []
    && (window == None || Side(log.acts, window.value, r.incident))
  }

  ghost predicate FromSide(rows: seq<Row>, logs: seq<Log>, window: Option<Window>) {
    forall r :: r in rows ==> exists log :: log in logs && FromLog(r, log, window)
  }

  /** What the first `n` activations of a stream leave, one after the other: nothing off the side trained on,
      and otherwise what sampling leaves. */
  ghost predicate Gathered(rows: seq<Row>, log: Log, window: Option<Window>, perClass: nat, n: nat)
    requires n <= |log.acts|
    decreases n
  {
    if n == 0 then rows == []
    else
      var act := log.acts[n - 1];
      FirstOfMember(log.acts, n - 1);
      exists k: nat ::
        && k <= |rows| && Gathered(rows[..k], log, window, perClass, n - 1)
        && if window == None || Side(log.acts, window.value, act.incident)
           then Sampled(rows[k..], act, TruthOf(log.acts[..n - 1]), log.name, perClass)
           else rows[k..] == []
  }

  lemma GatheredMore(rows: seq<Row>, more: seq<Row>, log: Log, window: Option<Window>, perClass: nat, n: nat)
    requires n < |log.acts| && Gathered(rows, log, window, perClass, n)
    requires First(log.acts, log.acts[n].incident) != None
    requires if window == None || Side(log.acts, window.value, log.acts[n].incident)
             then Sampled(more, log.acts[n], TruthOf(log.acts[..n]), log.name, perClass)
             else more == []
    ensures Gathered(rows + more, log, window, perClass, n + 1)
  {
    hide Sampled, Side;
    var k := |rows|;
    assert (rows + more)[..k] == rows && (rows + more)[k..] == more;
  }

  /** The loop over one stream's activations. */
  method StreamRows(log: Log, window: Option<Window>, perClass: nat, start: nat, pick: Sampler) returns (rows: seq<Row>)
    requires perClass > 0 && Samples(pick)
    ensures Gathered(rows, log, window, perClass, |log.acts|)
  {
    hide Samples, Side, Sampled, Gathered;
    rows := [];
    NothingGathered(log, window, perClass);
    var acts := log.acts;
    if acts == [] {
      return;
    }
    var side: Option<map<string, bool>> := None;
    if window != None {
      var s := IncidentSide(acts, window.value);
      side := Some(s);
    }
    var truth: map<int, string> := map[];
    for i := 0 to |acts|
      invariant truth == TruthOf(acts[..i])
      invariant Gathered(rows, log, window, perClass, i)
    {
      var act := acts[i];
      FirstOfMember(acts, i);
      assert acts[..i + 1][..i] == acts[..i];
      var more: seq<Row> := [];
      if side == None || side.value[act.incident] {
        more := Sample(act, truth, log.name, perClass, start + |rows|, pick);
      }
      GatheredMore(rows, more, log, window, perClass, i);
      rows := rows + more;
      truth := truth[act.alarm := act.incident];
    }
  }

  lemma NothingGathered(log: Log, window: Option<Window>, perClass: nat)
    ensures Gathered([], log, window, perClass, 0)
  {
  }

  /** The rows of a stream weigh one unit for each activation that yields pairs, and every one of them comes from
      a pair of the stream. */
  lemma {:induction false} GatheredTells(rows: seq<Row>, log: Log, window: Option<Window>, perClass: nat, n: nat)
    requires n <= |log.acts| && perClass > 0 && Gathered(rows, log, window, perClass, n)
    ensures Mass(rows) == Trained(log, window, n) as real
    ensures forall r :: r in rows ==> FromLog(r, log, window)
    decreases n
  {
    hide Gathered, Sampled, Side, Mass, Trains, FromLog;
    if n == 0 {
      GatheredNone(rows, log, window, perClass);
      NoMass(0);
    } else {
      FirstOfMember(log.acts, n - 1);
      var k := GatheredLast(rows, log, window, perClass, n);
      GatheredTells(rows[..k], log, window, perClass, n - 1);
      LastTells(rows[k..], log, window, perClass, n - 1);
      MassJoins(rows[..k], rows[k..]);
      assert rows == rows[..k] + rows[k..];
    }
  }

  lemma GatheredNone(rows: seq<Row>, log: Log, window: Option<Window>, perClass: nat)
    requires Gathered(rows, log, window, perClass, 0)
    ensures rows == []
  {
  }

  lemma GatheredLast(rows: seq<Row>, log: Log, window: Option<Window>, perClass: nat, n: nat) returns (k: nat)
    requires 0 < n <= |log.acts| && First(log.acts, log.acts[n - 1].incident) != None
    requires Gathered(rows, log, window, perClass, n)
    ensures k <= |rows| && Gathered(rows[..k], log, window, perClass, n - 1)
    ensures if window == None || Side(log.acts, window.value, log.acts[n - 1].incident)
            then Sampled(rows[k..], log.acts[n - 1], TruthOf(log.acts[..n - 1]), log.name, perClass)
            else rows[k..] == []
  {
    hide Sampled, Side;
    var act := log.acts[n - 1];
    k :| && k <= |rows| && Gathered(rows[..k], log, window, perClass, n - 1)
         && if window == None || Side(log.acts, window.value, act.incident)
            then Sampled(rows[k..], act, TruthOf(log.acts[..n - 1]), log.name, perClass)
            else rows[k..] == [];
  }

  lemma LastTells(rows: seq<Row>, log: Log, window: Option<Window>, perClass: nat, i: nat)
    requires i < |log.acts| && First(log.acts, log.acts[i].incident) != None && perClass > 0
    requires if window == None || Side(log.acts, window.value, log.acts[i].incident)
             then Sampled(rows, log.acts[i], TruthOf(log.acts[..i]), log.name, perClass)
             else rows == []
    ensures Mass(rows) == if Trains(log, window, i) then 1.0 else 0.0
    ensures forall r :: r in rows ==> FromLog(r, log, window)
  {
    hide Sampled, Side, Mass, Trains, FromLog;
    if window == None || Side(log.acts, window.value, log.acts[i].incident) {
      Counted(log, window, i, rows, perClass);
    } else {
      NoMass(0);
      Skipped(log, window, i);
    }
  }

  lemma Skipped(log: Log, window: Option<Window>, i: nat)
    requires i < |log.acts| && window != None && First(log.acts, log.acts[i].incident) != None
    requires !Side(log.acts, window.value, log.acts[i].incident)
    ensures !Trains(log, window, i)
  {
  }

  lemma Counted(log: Log, window: Option<Window>, i: nat, rows: seq<Row>, perClass: nat)
    requires i < |log.acts| && First(log.acts, log.acts[i].incident) != None && perClass > 0
    requires window == None || Side(log.acts, window.value, log.acts[i].incident)
    requires Sampled(rows, log.acts[i], TruthOf(log.acts[..i]), log.name, perClass)
    ensures Mass(rows) == if Trains(log, window, i) then 1.0 else 0.0
    ensures forall r :: r in rows ==> FromLog(r, log, window)
  {
    hide Class, Mass, MassOf, Side, FromLog, IsRow;
    var act, truth := log.acts[i], TruthOf(log.acts[..i]);
    NoMass(0);
    Seen(log, window, i);
    forall r | r in rows
      ensures FromLog(r, log, window)
    {
      var k :| 0 <= k < |rows| && rows[k] == r;
      RowFromLog(log, window, i, rows, perClass, k);
    }
  }

  /** An activation yields pairs exactly when one of its candidates is of some class. */
  lemma Seen(log: Log, window: Option<Window>, i: nat)
    requires i < |log.acts| && First(log.acts, log.acts[i].incident) != None
    requires window == None || Side(log.acts, window.value, log.acts[i].incident)
    ensures var act, truth := log.acts[i], TruthOf(log.acts[..i]);
            Trains(log, window, i) <==>
            |Class(act, truth, act.candidates, true)| + |Class(act, truth, act.candidates, false)| > 0
  {
    hide Class, Side, TruthOf;
    var act, truth := log.acts[i], TruthOf(log.acts[..i]);
    NoClass(act, truth, act.candidates);
    if c :| c in act.candidates && c.other in truth {
      TruthTells(log.acts, i, c.other);
      var j: nat :| j < i && log.acts[j].alarm == c.other;
    }
    if c, j: nat :| c in act.candidates && j < i && log.acts[j].alarm == c.other {
      TruthTells(log.acts, i, c.other);
    }
  }

  lemma RowFromLog(log: Log, window: Option<Window>, i: nat, rows: seq<Row>, perClass: nat, k: nat)
    requires i < |log.acts| && First(log.acts, log.acts[i].incident) != None && perClass > 0 && k < |rows|
    requires window == None || Side(log.acts, window.value, log.acts[i].incident)
    requires Sampled(rows, log.acts[i], TruthOf(log.acts[..i]), log.name, perClass)
    ensures FromLog(rows[k], log, window)
  {
    hide Class, Mass, MassOf, Side, TruthOf;
    var act, truth, r := log.acts[i], TruthOf(log.acts[..i]), rows[k];
    var pos, neg := Class(act, truth, act.candidates, true), Class(act, truth, act.candidates, false);
    var same := SplitRow(rows, act, log.name, pos, neg, perClass, k);
    var at := ClassTells(act, truth, act.candidates, same);
    var class_ := Class(act, truth, act.candidates, same);
    var m :| 0 <= m < |class_| && class_[m] == r.x;
    var c := act.candidates[at[m]];
    TruthTells(log.acts, i, c.other);
    var j: nat :| LastBefore(log.acts, i, c.other, j);
    assert FromPair(r, log.acts, i, c, j);
  }

  /** Each row is of one of the two classes. */
  lemma SplitRow(rows: seq<Row>, act: Activation, stream: string, pos: seq<Vec>, neg: seq<Vec>, perClass: nat, k: nat)
    returns (same: bool)
    requires |pos| + |neg| > 0 && Split(rows, act, stream, pos, neg, perClass) && k < |rows|
    ensures var r := rows[k];
            && r.stream == stream && r.incident == act.incident && r.family == act.family && r.ts == act.ts && r.w > 0.0
            && r.y == (if same then 1 else 0) && r.x in if same then pos else neg
  {
    hide Mass, MassOf;
    var p := if |pos| <= perClass then |pos| else perClass;
    same := k < p;
    if same {
      assert IsRow(rows[k], act, stream, 1, pos, p, |pos| + |neg|);
    } else {
      var n := if |neg| <= perClass then |neg| else perClass;
      assert IsRow(rows[k], act, stream, 0, neg, n, |pos| + |neg|);
    }
  }

  /** The rows of the streams, one stream after the other. */
  ghost predicate Collected(rows: seq<Row>, logs: seq<Log>, window: Option<Window>, perClass: nat)
    decreases |logs|
  {
    if logs == [] then rows == []
    else
      var last := logs[|logs| - 1];
      exists k: nat ::
        && k <= |rows| && Collected(rows[..k], logs[..|logs| - 1], window, perClass)
        && Gathered(rows[k..], last, window, perClass, |last.acts|)
  }

  lemma CollectedMore(rows: seq<Row>, more: seq<Row>, logs: seq<Log>, log: Log, window: Option<Window>, perClass: nat)
    requires Collected(rows, logs, window, perClass) && Gathered(more, log, window, perClass, |log.acts|)
    ensures Collected(rows + more, logs + [log], window, perClass)
  {
    hide Gathered;
    var k := |rows|;
    assert (rows + more)[..k] == rows && (rows + more)[k..] == more;
    assert (logs + [log])[..|logs|] == logs;
  }

  lemma {:induction false} CollectedTells(rows: seq<Row>, logs: seq<Log>, window: Option<Window>, perClass: nat)
    requires perClass > 0 && Collected(rows, logs, window, perClass)
    ensures Mass(rows) == TrainedIn(logs, window) as real
    ensures FromSide(rows, logs, window)
    decreases |logs|
  {
    hide Gathered, Mass, FromLog, Trained;
    if logs == [] {
      NoMass(0);
    } else {
      var last, rest := logs[|logs| - 1], logs[..|logs| - 1];
      assert logs == rest + [last];
      var k: nat :|
        && k <= |rows| && Collected(rows[..k], rest, window, perClass)
        && Gathered(rows[k..], last, window, perClass, |last.acts|);
      CollectedTells(rows[..k], rest, window, perClass);
      GatheredTells(rows[k..], last, window, perClass, |last.acts|);
      assert rows == rows[..k] + rows[k..];
      MassJoins(rows[..k], rows[k..]);
    }
  }

  /** `training_rows`: of each stream, in order, what sampling leaves of each activation of the side trained on.
      Whatever the sampler keeps, the rows weigh exactly one unit for each such activation that has a candidate
      seen before. */
  method TrainingRows(logs: seq<Log>, window: Option<Window>, perClass: nat, pick: Sampler) returns (out: seq<Row>)
    requires perClass > 0 && Samples(pick)
    ensures Collected(out, logs, window, perClass)
    ensures Mass(out) == TrainedIn(logs, window) as real
    ensures FromSide(out, logs, window)
  {
    hide Samples, Gathered, FromLog, FromSide, Mass;
    out := [];
    for i := 0 to |logs|
      invariant Collected(out, logs[..i], window, perClass)
    {
      var rows := StreamRows(logs[i], window, perClass, |out|, pick);
      CollectedMore(out, rows, logs[..i], logs[i], window, perClass);
      assert logs[..i + 1] == logs[..i] + [logs[i]];
      out := out + rows;
    }
    assert logs[..|logs|] == logs;
    CollectedTells(out, logs, window, perClass);
  }
}
