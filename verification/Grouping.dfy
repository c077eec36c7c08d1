/**
 The grouping decision of `engine/correlate/grouping.py`, on values: what `place` answers and what
 `commit`, `_fold` and `forget` do to the accumulated evidence between situations.

 The nested dictionary of shared accumulators is viewed here as one map from ordered pairs of
 situations to evidence; `GrouperObject` proves that the shared, mutable accumulators implement it.
 */
module Grouping {
  import opened Sorting
  import opened Wrappers

  datatype Mode = Components | Cluster

  datatype Params = Params(joinBias: real, mergeBias: real, mergeMinPairs: int)

  datatype Scored = Scored(alarm: int, evidence: real, linked: bool)

  /** A sum of log-odds evidence and the number of pairs it was summed over. */
  datatype Ev = Ev(sum: real, pairs: int)

  /** One situation the newcomer was scored against: its mean evidence over `pairs` pairs. */
  datatype Row = Row(sid: int, mean: real, pairs: int)

  datatype Tally = Tally(sid: int, ev: Ev)

  datatype Placement = Placement(join: Option<int>, merge: seq<int>, support: seq<Row>)

  const ZERO := Ev(0.0, 0)

  function Plus(x: Ev, y: Ev): Ev {
    Ev(x.sum + y.sum, x.pairs + y.pairs)
  }

  // ---------- the evidence between situations ----------

  type Cross = map<(int, int), Ev>

  function At(c: Cross, a: int, b: int): Ev {
    if (a, b) in c then c[(a, b)] else ZERO
  }

  /** Evidence is symmetric and never kept between a situation and itself. */
  ghost predicate Symmetric(c: Cross) {
    forall p :: p in c ==> p.0 != p.1 && (p.1, p.0) in c && c[(p.1, p.0)] == c[p]
  }

  /** `forget` of every situation of `gone`. */
  function Forget(c: Cross, gone: set<int>): Cross {
    map p | p in c && p.0 !in gone && p.1 !in gone :: c[p]
  }

  /** Forgetting drops the evidence from and to the situations forgotten, and no other. */
  lemma ForgetReads(c: Cross, gone: set<int>, a: int, b: int)
    ensures (a, b) in Forget(c, gone) <==> (a, b) in c && !(a in gone || b in gone)
    ensures At(Forget(c, gone), a, b) == if a in gone || b in gone then Ev(0.0, 0) else At(c, a, b)
  {
    assert (a, b).0 == a && (a, b).1 == b;
  }

  /** The pairs that carry evidence once `src` is folded into `dst`. */
  function FoldKeys(c: Cross, dst: int, src: int): set<(int, int)> {
    (set p | p in c && p.0 != src && p.1 != src)
    + (set p | p in c && p.0 == src && p.1 != dst :: (dst, p.1))
    + (set p | p in c && p.1 == src && p.0 != dst :: (p.0, dst))
  }

  function FoldAt(c: Cross, dst: int, src: int, a: int, b: int): Ev {
    if a == dst then Plus(At(c, dst, b), At(c, src, b))
    else if b == dst then Plus(At(c, a, dst), At(c, a, src))
    else At(c, a, b)
  }

  /** `_fold`: everything known about `src` is from now on known about `dst`. */
  function Fold(c: Cross, dst: int, src: int): Cross {
    if dst == src then c
    else map p | p in FoldKeys(c, dst, src) :: FoldAt(c, dst, src, p.0, p.1)
  }

  function FoldAll(c: Cross, dst: int, merge: seq<int>): Cross {
    if merge == [] then c
    else Fold(FoldAll(c, dst, merge[..|merge| - 1]), dst, merge[|merge| - 1])
  }

  /** One scored pair's evidence, recorded both ways round. */
  function AddPair(c: Cross, sid: int, pair: Scored, sitOf: map<int, int>): Cross {
    if pair.alarm !in sitOf || sitOf[pair.alarm] == sid then c
    else
      var other := sitOf[pair.alarm];
      var ev := Plus(At(c, sid, other), Ev(pair.evidence, 1));
      c[(sid, other) := ev][(other, sid) := ev]
  }

  function AddPairs(c: Cross, sid: int, scored: seq<Scored>, sitOf: map<int, int>): Cross {
    if scored == [] then c
    else AddPair(AddPairs(c, sid, scored[..|scored| - 1], sitOf), sid, scored[|scored| - 1], sitOf)
  }

  function Commit(mode: Mode, c: Cross, sid: int, merge: seq<int>, scored: seq<Scored>,
                  sitOf: map<int, int>): Cross
  {
    if mode.Components? then c else AddPairs(FoldAll(c, sid, merge), sid, scored, sitOf)
  }

  lemma ForgetSymmetric(c: Cross, gone: set<int>)
    requires Symmetric(c)
    ensures Symmetric(Forget(c, gone))
  {
  }

  lemma FoldKeyShape(cross: Cross, dst: int, src: int, p: (int, int))
    requires p in FoldKeys(cross, dst, src)
    ensures || (p in cross && p.0 != src && p.1 != src)
            || (p.0 == dst && p.1 != dst && (src, p.1) in cross)
            || (p.1 == dst && p.0 != dst && (p.0, src) in cross)
  {
    if q :| q in cross && q.0 == src && q.1 != dst && p == (dst, q.1) {
      assert q == (src, p.1);
    } else if q :| q in cross && q.1 == src && q.0 != dst && p == (q.0, dst) {
      assert q == (p.0, src);
    }
  }

  lemma FoldKeyMeets(cross: Cross, dst: int, src: int, p: (int, int))
    requires || (p in cross && p.0 != src && p.1 != src)
             || (p.0 == dst && p.1 != dst && (src, p.1) in cross)
             || (p.1 == dst && p.0 != dst && (p.0, src) in cross)
    ensures p in FoldKeys(cross, dst, src)
  {
    if p.0 == dst && p.1 != dst && (src, p.1) in cross {
      var q := (src, p.1);
      assert q in cross && q.0 == src && q.1 != dst && p == (dst, q.1);
    }
    if p.1 == dst && p.0 != dst && (p.0, src) in cross {
      var q := (p.0, src);
      assert q in cross && q.1 == src && q.0 != dst && p == (q.0, dst);
    }
  }

  lemma SymmetricAt(c: Cross, a: int, b: int)
    requires Symmetric(c)
    ensures At(c, a, b) == At(c, b, a) && ((a, b) in c <==> (b, a) in c)
  {
    assert (a, b) in c ==> (b, a) in c && c[(b, a)] == c[(a, b)];
    assert (b, a) in c ==> (a, b) in c && c[(b, a)] == c[(a, b)];
  }

  lemma FoldSymmetricAt(c: Cross, dst: int, src: int, p: (int, int))
    requires Symmetric(c) && p in FoldKeys(c, dst, src)
    ensures p.0 != p.1 && (p.1, p.0) in FoldKeys(c, dst, src)
    ensures FoldAt(c, dst, src, p.1, p.0) == FoldAt(c, dst, src, p.0, p.1)
  {
    FoldKeyShape(c, dst, src, p);
    SymmetricAt(c, p.0, p.1);
    SymmetricAt(c, src, p.0);
    SymmetricAt(c, src, p.1);
    FoldKeyMeets(c, dst, src, (p.1, p.0));
  }

  lemma FoldSymmetric(c: Cross, dst: int, src: int)
    requires Symmetric(c)
    ensures Symmetric(Fold(c, dst, src))
  {
    if dst != src {
      var f := Fold(c, dst, src);
      forall p | p in f
        ensures p.0 != p.1 && (p.1, p.0) in f && f[(p.1, p.0)] == f[p]
      {
        FoldSymmetricAt(c, dst, src, p);
        hide FoldKeys, FoldAt;
      }
    }
  }

  /** What `_fold` leaves between two situations: the survivor holds its own evidence and that of
      the folded one, the folded one holds none, everybody else is untouched. */
  lemma FoldReads(c: Cross, dst: int, src: int, a: int, b: int)
    requires Symmetric(c) && dst != src && a != b
    ensures At(Fold(c, dst, src), a, b) ==
            if a == src || b == src then ZERO else FoldAt(c, dst, src, a, b)
  {
    if a != src && b != src {
      if a == dst && (src, b) in c {
        assert (a, b) in FoldKeys(c, dst, src);
      } else if b == dst && (a, src) in c {
        assert (a, b) in FoldKeys(c, dst, src);
      }
    }
  }

  lemma AddPairsSymmetric(c: Cross, sid: int, scored: seq<Scored>, sitOf: map<int, int>)
    requires Symmetric(c)
    ensures Symmetric(AddPairs(c, sid, scored, sitOf))
  {
    if scored != [] {
      AddPairsSymmetric(c, sid, scored[..|scored| - 1], sitOf);
    }
  }

  // ---------- support: the newcomer's evidence per situation ----------

  function Note(rows: seq<Tally>, sid: int, evidence: real): seq<Tally> {
    if rows == [] then [Tally(sid, Ev(evidence, 1))]
    else if rows[0].sid == sid then [Tally(sid, Plus(rows[0].ev, Ev(evidence, 1)))] + rows[1..]
    else [rows[0]] + Note(rows[1..], sid, evidence)
  }

  function NotePair(rows: seq<Tally>, pair: Scored, sitOf: map<int, int>): seq<Tally> {
    if pair.alarm in sitOf then Note(rows, sitOf[pair.alarm], pair.evidence) else rows
  }

  ghost predicate Tallied(rows: seq<Tally>) {
    && (forall i, j :: 0 <= i < j < |rows| ==> rows[i].sid != rows[j].sid)
    && (forall i :: 0 <= i < |rows| ==> rows[i].ev.pairs > 0)
  }

  /** Evidence per situation, situations in the order they were first met. */
  function Support(scored: seq<Scored>, sitOf: map<int, int>): (rows: seq<Tally>)
    ensures Tallied(rows)
  {
    if scored == [] then []
    else
      var pair := scored[|scored| - 1];
      var before := Support(scored[..|scored| - 1], sitOf);
      NoteTallied(before, if pair.alarm in sitOf then sitOf[pair.alarm] else 0, pair.evidence);
      NotePair(Support(scored[..|scored| - 1], sitOf), scored[|scored| - 1], sitOf)
  }

  /** The evidence `scored` holds towards situation `sid`, counted straight off the list. */
  function Weight(scored: seq<Scored>, sitOf: map<int, int>, sid: int): Ev {
    if scored == [] then ZERO
    else
      var pair := scored[|scored| - 1];
      var before := Weight(scored[..|scored| - 1], sitOf, sid);
      if pair.alarm in sitOf && sitOf[pair.alarm] == sid
      then Plus(before, Ev(pair.evidence, 1)) else before
  }

  function Lookup(rows: seq<Tally>, sid: int): Ev {
    if rows == [] then ZERO else if rows[0].sid == sid then rows[0].ev else Lookup(rows[1..], sid)
  }

  lemma {:induction false} NoteMembers(rows: seq<Tally>, sid: int, evidence: real)
    ensures forall t :: t in Note(rows, sid, evidence) ==> t.sid == sid || t in rows
  {
    if rows != [] && rows[0].sid != sid {
      NoteMembers(rows[1..], sid, evidence);
    }
  }

  lemma TalliedCons(row: Tally, rest: seq<Tally>)
    requires Tallied(rest) && row.ev.pairs > 0 && forall t :: t in rest ==> t.sid != row.sid
    ensures Tallied([row] + rest)
  {
    assert forall i :: 0 <= i < |rest| ==> rest[i] in rest;
  }

  lemma TalliedRest(rows: seq<Tally>)
    requires Tallied(rows) && rows != []
    ensures rows[0].ev.pairs > 0 && Tallied(rows[1..])
    ensures forall t :: t in rows[1..] ==> t.sid != rows[0].sid
  {
    assert forall i :: 0 <= i < |rows| - 1 ==> rows[1..][i] == rows[i + 1];
  }

  lemma {:induction false} NoteTallied(rows: seq<Tally>, sid: int, evidence: real)
    requires Tallied(rows)
    ensures Tallied(Note(rows, sid, evidence))
  {
    if rows != [] {
      TalliedRest(rows);
      NoteMembers(rows[1..], sid, evidence);
      NoteTallied(rows[1..], sid, evidence);
      hide Tallied;
      if rows[0].sid == sid {
        TalliedCons(Tally(sid, Plus(rows[0].ev, Ev(evidence, 1))), rows[1..]);
      } else {
        TalliedCons(rows[0], Note(rows[1..], sid, evidence));
      }
    }
  }

  lemma {:induction false} NoteReads(rows: seq<Tally>, sid: int, evidence: real, at: int)
    ensures Lookup(Note(rows, sid, evidence), at) ==
            if at == sid then Plus(Lookup(rows, at), Ev(evidence, 1)) else Lookup(rows, at)
  {
    if rows != [] {
      if rows[0].sid == sid {
        assert Note(rows, sid, evidence)[1..] == rows[1..];
      } else {
        NoteReads(rows[1..], sid, evidence, at);
      }
    }
  }

  lemma SupportMeets(scored: seq<Scored>, sitOf: map<int, int>, at: int)
    ensures Lookup(Support(scored, sitOf), at) == Weight(scored, sitOf, at)
  {
    if scored != [] {
      var before := Support(scored[..|scored| - 1], sitOf);
      var pair := scored[|scored| - 1];
      SupportMeets(scored[..|scored| - 1], sitOf, at);
      if pair.alarm in sitOf {
        NoteReads(before, sitOf[pair.alarm], pair.evidence, at);
      }
    }
  }

  lemma LookupAt(rows: seq<Tally>, sid: int)
    requires Tallied(rows)
    ensures Lookup(rows, sid).pairs > 0 <==> exists i :: 0 <= i < |rows| && rows[i].sid == sid
    ensures forall i :: 0 <= i < |rows| && rows[i].sid == sid ==> rows[i].ev == Lookup(rows, sid)
  {
    if rows != [] {
      assert rows[0].ev.pairs > 0;
      LookupAt(rows[1..], sid);
      if rows[0].sid != sid {
        if i :| 0 <= i < |rows| && rows[i].sid == sid {
          assert rows[1..][i - 1].sid == sid;
        }
      }
    }
  }

  // ---------- the placement ----------

  /** The order in which candidate situations are ranked: `(-mean, -pairs, sid)`. */
  predicate Ahead(x: Row, y: Row) {
    x.mean > y.mean
    || (x.mean == y.mean && (x.pairs > y.pairs || (x.pairs == y.pairs && x.sid <= y.sid)))
  }

  function RowOf(t: Tally): Row
    requires t.ev.pairs > 0
  {
    Row(t.sid, t.ev.sum / t.ev.pairs as real, t.ev.pairs)
  }

  function Rows(tallies: seq<Tally>): seq<Row>
    requires Tallied(tallies)
  {
    seq(|tallies|, i requires 0 <= i < |tallies| => RowOf(tallies[i]))
  }

  function Rank(tallies: seq<Tally>): seq<Row>
    requires Tallied(tallies)
  {
    Sort(Rows(tallies), Ahead)
  }

  predicate AtMost(x: int, y: int) {
    x <= y
  }

  /** Does all the evidence ever seen between two situations carry their merge? */
  predicate Merges(params: Params, total: Ev) {
    total.pairs > 0 && total.pairs >= params.mergeMinPairs
    && total.sum / total.pairs as real > params.mergeBias
  }

  function MergeList(params: Params, cross: Cross, join: int, tallies: seq<Tally>,
                     ranked: seq<Row>): seq<int>
  {
    if ranked == [] then []
    else
      var rest := MergeList(params, cross, join, tallies, ranked[..|ranked| - 1]);
      var sid := ranked[|ranked| - 1].sid;
      if sid != join && Merges(params, Plus(At(cross, join, sid), Lookup(tallies, sid)))
      then rest + [sid] else rest
  }

  /** `place` in cluster mode. */
  function PlaceCluster(params: Params, cross: Cross, scored: seq<Scored>, sitOf: map<int, int>,
                        own: Option<int>): Placement
  {
    var tallies := Support(scored, sitOf);
    var ranked := Rank(tallies);
    var join :=
      if own.Some? then own
      else if ranked != [] && ranked[0].mean > params.joinBias then Some(ranked[0].sid)
      else None;
    Placement(join,
              if join.None? then []
              else Sort(MergeList(params, cross, join.value, tallies, ranked), AtMost),
              ranked)
  }

  /** The situations the newcomer is linked to, its own included. */
  function Linked(scored: seq<Scored>, sitOf: map<int, int>, own: Option<int>): set<int> {
    (set p | p in scored && p.linked && p.alarm in sitOf :: sitOf[p.alarm])
    + (if own.Some? then {own.value} else {})
  }

  function Smallest(xs: set<int>): (m: int)
    requires xs != {}
    ensures m in xs && forall x :: x in xs ==> m <= x
  {
    SmallestExists(xs);
    var m :| m in xs && forall x :: x in xs ==> m <= x;
    m
  }

  lemma SmallestExists(xs: set<int>)
    requires xs != {}
    ensures exists m :: m in xs && forall x :: x in xs ==> m <= x
  {
    if forall y :: y !in xs {
      assert false;
    }
    var y :| y in xs;
    var rest := xs - {y};
    assert forall x :: x in xs ==> x == y || x in rest;
    if rest == {} {
      assert forall x :: x in xs ==> y <= x;
    } else {
      SmallestExists(rest);
      var m :| m in rest && forall x :: x in rest ==> m <= x;
      var least := if y <= m then y else m;
      assert least in xs && forall x :: x in xs ==> least <= x;
    }
  }

  /** A set of situations in increasing order. */
  function Ascending(xs: set<int>): (s: seq<int>)
    ensures forall x :: x in s <==> x in xs
  {
    if xs == {} then []
    else var m := Smallest(xs); [m] + Ascending(xs - {m})
  }

  /** `_components`: the smallest linked situation absorbs every other one. */
  function PlaceComponents(scored: seq<Scored>, sitOf: map<int, int>, own: Option<int>): Placement {
    var sids := Linked(scored, sitOf, own);
    if sids == {} then Placement(None, [], [])
    else
      var join := Smallest(sids);
      Placement(Some(join), Ascending(sids - {join}), [])
  }

  function Place(mode: Mode, params: Params, cross: Cross, scored: seq<Scored>,
                 sitOf: map<int, int>, own: Option<int>): Placement
  {
    if mode.Components? then PlaceComponents(scored, sitOf, own)
    else PlaceCluster(params, cross, scored, sitOf, own)
  }

  // ---------- what a placement means ----------

  lemma AheadOrders(rows: seq<Row>)
    ensures Orders(Ahead, rows)
  {
  }

  lemma RankMeets(tallies: seq<Tally>)
    requires Tallied(tallies)
    ensures forall r :: r in Rank(tallies) <==> exists i :: 0 <= i < |tallies| && r == RowOf(tallies[i])
    ensures forall r :: r in Rank(tallies) ==> Ahead(Rank(tallies)[0], r)
  {
    var rows := Rows(tallies);
    AheadOrders(rows);
    SortSorts(rows, Ahead);
    forall r
      ensures r in rows <==> exists i :: 0 <= i < |tallies| && r == RowOf(tallies[i])
    {
      if i :| 0 <= i < |tallies| && r == RowOf(tallies[i]) {
        assert rows[i] == r;
      }
    }
    var ranked := Rank(tallies);
    forall r | r in ranked
      ensures Ahead(ranked[0], r)
    {
      var i :| 0 <= i < |ranked| && ranked[i] == r;
    }
  }

  lemma MergeListMeets(params: Params, cross: Cross, join: int, tallies: seq<Tally>,
                       ranked: seq<Row>, sid: int)
    ensures sid in MergeList(params, cross, join, tallies, ranked) <==>
            && sid != join
            && (exists i :: 0 <= i < |ranked| && ranked[i].sid == sid)
            && Merges(params, Plus(At(cross, join, sid), Lookup(tallies, sid)))
  {
    if ranked != [] {
      var shorter := ranked[..|ranked| - 1];
      MergeListMeets(params, cross, join, tallies, shorter, sid);
      if i :| 0 <= i < |ranked| && ranked[i].sid == sid {
        assert i < |shorter| ==> shorter[i].sid == sid;
      }
    }
  }

  /** The mean evidence towards a situation the newcomer was scored against. */
  function Mean(e: Ev): real
    requires e.pairs > 0
  {
    e.sum / e.pairs as real
  }

  /** A ranked row carries exactly the evidence the newcomer was scored with. */
  lemma RankedRow(scored: seq<Scored>, sitOf: map<int, int>, r: Row)
    requires r in Rank(Support(scored, sitOf))
    ensures var w := Weight(scored, sitOf, r.sid); w.pairs > 0 && r == Row(r.sid, Mean(w), w.pairs)
  {
    var tallies := Support(scored, sitOf);
    SupportMeets(scored, sitOf, r.sid);
    LookupAt(tallies, r.sid);
    RankMeets(tallies);
    var i :| 0 <= i < |tallies| && r == RowOf(tallies[i]);
  }

  /** Every situation the newcomer was scored against is ranked. */
  lemma Ranked(scored: seq<Scored>, sitOf: map<int, int>, sid: int)
    requires Weight(scored, sitOf, sid).pairs > 0
    ensures var w := Weight(scored, sitOf, sid); Row(sid, Mean(w), w.pairs) in Rank(Support(scored, sitOf))
  {
    var tallies := Support(scored, sitOf);
    SupportMeets(scored, sitOf, sid);
    LookupAt(tallies, sid);
    RankMeets(tallies);
    var i :| 0 <= i < |tallies| && tallies[i].sid == sid;
    assert RowOf(tallies[i]) in Rank(tallies);
  }

  /** The first ranked row carries its situation's evidence and stands ahead of every other situation's. */
  lemma FirstRow(scored: seq<Scored>, sitOf: map<int, int>)
    ensures var ranked := Rank(Support(scored, sitOf));
            ranked != [] ==>
              var w := Weight(scored, sitOf, ranked[0].sid);
              w.pairs > 0 && ranked[0] == Row(ranked[0].sid, Mean(w), w.pairs)
    ensures var ranked := Rank(Support(scored, sitOf));
            forall sid :: Weight(scored, sitOf, sid).pairs > 0 ==>
              var w := Weight(scored, sitOf, sid);
              ranked != [] && Ahead(ranked[0], Row(sid, Mean(w), w.pairs))
  {
    var ranked := Rank(Support(scored, sitOf));
    RankMeets(Support(scored, sitOf));
    hide Rank, Ahead;
    forall sid | Weight(scored, sitOf, sid).pairs > 0
      ensures var w := Weight(scored, sitOf, sid); ranked != [] && Ahead(ranked[0], Row(sid, Mean(w), w.pairs))
    {
      Ranked(scored, sitOf, sid);
    }
    if ranked != [] {
      RankedRow(scored, sitOf, ranked[0]);
    }
  }

  /** Ranked at least as high: a greater mean - the sums compared over each other's pairs - or the same mean over
      more pairs, or the same over as many and no greater an id. */
  ghost predicate AtLeast(x: Ev, xSid: int, y: Ev, ySid: int) {
    var first, second := x.sum * y.pairs as real, y.sum * x.pairs as real;
    first > second || (first == second && (x.pairs > y.pairs || (x.pairs == y.pairs && xSid <= ySid)))
  }

  lemma AheadIsAtLeast(x: Ev, xSid: int, y: Ev, ySid: int)
    requires x.pairs > 0 && y.pairs > 0
    ensures Ahead(Row(xSid, Mean(x), x.pairs), Row(ySid, Mean(y), y.pairs)) <==> AtLeast(x, xSid, y, ySid)
  {
    Ratios(x.sum, x.pairs as real, y.sum, y.pairs as real);
  }

  lemma Ratios(a: real, m: real, b: real, n: real)
    requires m > 0.0 && n > 0.0
    ensures a / m > b / n <==> a * n > b * m
    ensures a / m == b / n <==> a * n == b * m
  {
    var x, y := a / m, b / n;
    assert x * m == a && y * n == b;
    assert a * n == x * (m * n) && b * m == y * (m * n);
    assert m * n > 0.0;
    Scale(x, y, m * n);
  }

  lemma Scale(x: real, y: real, k: real)
    requires k > 0.0
    ensures x * k > y * k <==> x > y
    ensures x * k == y * k <==> x == y
  {
    assert x * k - y * k == (x - y) * k;
  }

  lemma MeanTimes(e: Ev)
    requires e.pairs > 0
    ensures Mean(e) * e.pairs as real == e.sum
  {
  }

  lemma AboveBias(e: Ev, bias: real)
    requires e.pairs > 0
    ensures Mean(e) > bias <==> e.sum > bias * e.pairs as real
  {
    var k := e.pairs as real;
    assert Mean(e) * k == e.sum;
    Scale(Mean(e), bias, k);
  }

  lemma JoinAhead(params: Params, cross: Cross, scored: seq<Scored>, sitOf: map<int, int>, own: Option<int>)
    ensures var p := PlaceCluster(params, cross, scored, sitOf, own);
            && (own.Some? ==> p.join == own)
            && (own.None? ==>
                  (p.join.Some? <==>
                   exists sid :: Weight(scored, sitOf, sid).pairs > 0
                                 && Mean(Weight(scored, sitOf, sid)) > params.joinBias))
            && (own.None? && p.join.Some? ==>
                  var best := Weight(scored, sitOf, p.join.value);
                  && best.pairs > 0 && Mean(best) > params.joinBias
                  && forall sid :: Weight(scored, sitOf, sid).pairs > 0 ==>
                       Ahead(Row(p.join.value, Mean(best), best.pairs),
                             Row(sid, Mean(Weight(scored, sitOf, sid)), Weight(scored, sitOf, sid).pairs)))
  {
    FirstRow(scored, sitOf);
    hide Rank, Support, Weight, MergeList, Mean;
  }

  /** In cluster mode an alarm already placed stays; any other joins the situation of highest mean
      evidence - most pairs, then smallest id, on a tie - when that mean clears the join bias, and
      opens a new situation exactly when no mean does. */
  lemma ClusterJoin(params: Params, cross: Cross, scored: seq<Scored>, sitOf: map<int, int>, own: Option<int>)
    ensures var p := PlaceCluster(params, cross, scored, sitOf, own);
            && (own.Some? ==> p.join == own)
            && (own.None? ==>
                  (p.join.Some? <==>
                   exists sid :: var w := Weight(scored, sitOf, sid);
                                 w.pairs > 0 && w.sum > params.joinBias * w.pairs as real))
            && (own.None? && p.join.Some? ==>
                  var best := Weight(scored, sitOf, p.join.value);
                  && best.pairs > 0 && best.sum > params.joinBias * best.pairs as real
                  && forall sid :: Weight(scored, sitOf, sid).pairs > 0 ==>
                       AtLeast(best, p.join.value, Weight(scored, sitOf, sid), sid))
  {
    hide PlaceCluster, Weight, Mean, Ahead, AtLeast;
    JoinAhead(params, cross, scored, sitOf, own);
    var p := PlaceCluster(params, cross, scored, sitOf, own);
    forall sid | Weight(scored, sitOf, sid).pairs > 0
      ensures var w := Weight(scored, sitOf, sid);
              Mean(w) > params.joinBias <==> w.sum > params.joinBias * w.pairs as real
    {
      AboveBias(Weight(scored, sitOf, sid), params.joinBias);
    }
    if own.None? && p.join.Some? {
      forall sid | Weight(scored, sitOf, sid).pairs > 0
        ensures AtLeast(Weight(scored, sitOf, p.join.value), p.join.value, Weight(scored, sitOf, sid), sid)
      {
        AheadIsAtLeast(Weight(scored, sitOf, p.join.value), p.join.value, Weight(scored, sitOf, sid), sid);
      }
    }
  }

  lemma MergeStep(params: Params, cross: Cross, scored: seq<Scored>, sitOf: map<int, int>,
                  own: Option<int>, sid: int)
    ensures var p := PlaceCluster(params, cross, scored, sitOf, own);
            sid in p.merge <==>
            && p.join.Some? && sid != p.join.value
            && Weight(scored, sitOf, sid).pairs > 0
            && Merges(params, Plus(At(cross, p.join.value, sid), Weight(scored, sitOf, sid)))
  {
    SupportMeets(scored, sitOf, sid);
    var tallies := Support(scored, sitOf);
    var ranked := Rank(tallies);
    if i :| 0 <= i < |ranked| && ranked[i].sid == sid {
      RankedRow(scored, sitOf, ranked[i]);
    }
    if Weight(scored, sitOf, sid).pairs > 0 {
      Ranked(scored, sitOf, sid);
    }
    var p := PlaceCluster(params, cross, scored, sitOf, own);
    if p.join.Some? {
      MergeListMeets(params, cross, p.join.value, tallies, ranked, sid);
    }
  }

  lemma MergesExactly(params: Params, kept: Ev, w: Ev)
    ensures Merges(params, Plus(kept, w)) <==>
            var sum, pairs := kept.sum + w.sum, kept.pairs + w.pairs;
            pairs > 0 && pairs >= params.mergeMinPairs && sum > params.mergeBias * pairs as real
  {
    if kept.pairs + w.pairs > 0 {
      AboveBias(Plus(kept, w), params.mergeBias);
    }
  }

  /** In cluster mode exactly those other situations are folded in that this activation was scored
      against and whose whole evidence towards the joined one - kept plus new - is of enough pairs and has a mean
      above the merge bias. */
  lemma ClusterMerge(params: Params, cross: Cross, scored: seq<Scored>, sitOf: map<int, int>,
                     own: Option<int>, sid: int)
    ensures var p := PlaceCluster(params, cross, scored, sitOf, own);
            sid in p.merge <==>
            && p.join.Some? && sid != p.join.value
            && Weight(scored, sitOf, sid).pairs > 0
            && var kept, w := At(cross, p.join.value, sid), Weight(scored, sitOf, sid);
               var sum, pairs := kept.sum + w.sum, kept.pairs + w.pairs;
               pairs > 0 && pairs >= params.mergeMinPairs && sum > params.mergeBias * pairs as real
  {
    hide PlaceCluster, Merges, Weight, At, Plus;
    var p := PlaceCluster(params, cross, scored, sitOf, own);
    MergeStep(params, cross, scored, sitOf, own, sid);
    if p.join.Some? {
      MergesExactly(params, At(cross, p.join.value, sid), Weight(scored, sitOf, sid));
    }
  }

  /** Nothing is folded on fewer pairs than the minimum, and nothing whose mean is at the bias or below. */
  lemma MergeNeeds(params: Params, cross: Cross, scored: seq<Scored>, sitOf: map<int, int>, own: Option<int>, sid: int)
    ensures var p := PlaceCluster(params, cross, scored, sitOf, own);
            p.join.Some? ==>
              var kept, w := At(cross, p.join.value, sid), Weight(scored, sitOf, sid);
              && (kept.pairs + w.pairs < params.mergeMinPairs ==> sid !in p.merge)
              && (kept.sum + w.sum <= params.mergeBias * (kept.pairs + w.pairs) as real ==> sid !in p.merge)
  {
    ClusterMerge(params, cross, scored, sitOf, own, sid);
    hide PlaceCluster, Weight, At;
  }

  /** The positions of the scored pairs whose other alarm is in the situation. */
  ghost function Towards(scored: seq<Scored>, sitOf: map<int, int>, sid: int): set<nat> {
    set i: nat | i < |scored| && scored[i].alarm in sitOf && sitOf[scored[i].alarm] == sid
  }

  ghost function EvidenceAt(scored: seq<Scored>, at: set<nat>): real {
    if scored == [] then 0.0
    else
      var n := |scored| - 1;
      EvidenceAt(scored[..n], at) + if n in at then scored[n].evidence else 0.0
  }

  lemma {:induction false} EvidenceApart(scored: seq<Scored>, at: set<nat>, more: set<nat>)
    requires forall i :: i in more ==> i >= |scored|
    ensures EvidenceAt(scored, at + more) == EvidenceAt(scored, at)
  {
    if scored != [] {
      EvidenceApart(scored[..|scored| - 1], at, more);
    }
  }

  /** The evidence towards a situation is the number of the pairs scored towards it and the sum of theirs. */
  lemma {:induction false} WeightCounts(scored: seq<Scored>, sitOf: map<int, int>, sid: int)
    ensures Weight(scored, sitOf, sid).pairs == |Towards(scored, sitOf, sid)|
    ensures Weight(scored, sitOf, sid).sum == EvidenceAt(scored, Towards(scored, sitOf, sid))
  {
    if scored != [] {
      var n := |scored| - 1;
      var rest, pair := scored[..n], scored[n];
      var before, now := Towards(rest, sitOf, sid), Towards(scored, sitOf, sid);
      WeightCounts(rest, sitOf, sid);
      if pair.alarm in sitOf && sitOf[pair.alarm] == sid {
        assert now == before + {n};
        EvidenceApart(rest, before, {n});
      } else {
        assert now == before;
      }
    }
  }

  lemma WeightIsPlaced(scored: seq<Scored>, sitOf: map<int, int>, sid: int)
    requires Weight(scored, sitOf, sid).pairs > 0
    ensures exists a :: a in sitOf && sitOf[a] == sid
  {
    var pair := scored[|scored| - 1];
    if !(pair.alarm in sitOf && sitOf[pair.alarm] == sid) {
      WeightIsPlaced(scored[..|scored| - 1], sitOf, sid);
    }
  }

  /** What a grouper owes its caller: it names only situations that hold an alarm, never folds a
      situation into itself, and an alarm already placed ends up with its own situation - joined, or
      folded into the one it joins. */
  ghost predicate Answers(p: Placement, sitOf: map<int, int>, own: Option<int>) {
    && (p.join.Some? ==> exists a :: a in sitOf && sitOf[a] == p.join.value)
    && (p.join.None? ==> p.merge == [])
    && (forall m :: m in p.merge ==> p.join != Some(m) && exists a :: a in sitOf && sitOf[a] == m)
    && (own.Some? ==> p.join == own || (p.join.Some? && own.value in p.merge))
  }

  /** The appliance's grouper meets that contract in both modes, whatever it was scored against. */
  lemma PlaceAnswers(mode: Mode, params: Params, cross: Cross, scored: seq<Scored>,
                     sitOf: map<int, int>, own: Option<int>)
    requires own.Some? ==> exists a :: a in sitOf && sitOf[a] == own.value
    ensures Answers(Place(mode, params, cross, scored, sitOf, own), sitOf, own)
  {
    var p := Place(mode, params, cross, scored, sitOf, own);
    if mode.Cluster? {
      ClusterJoin(params, cross, scored, sitOf, own);
      if own.None? && p.join.Some? {
        WeightIsPlaced(scored, sitOf, p.join.value);
      }
      forall m | m in p.merge
        ensures p.join != Some(m) && exists a :: a in sitOf && sitOf[a] == m
      {
        ClusterMerge(params, cross, scored, sitOf, own, m);
        WeightIsPlaced(scored, sitOf, m);
      }
    }
  }

  /** A placed alarm keeps its own situation in cluster mode. In components mode it does exactly when no alarm it
      is linked to is in an older one; otherwise its situation is among those folded into the oldest. */
  lemma OwnMayMove(mode: Mode, params: Params, cross: Cross, scored: seq<Scored>, sitOf: map<int, int>, own: int)
    ensures var p := Place(mode, params, cross, scored, sitOf, Some(own));
            && p.join != None
            && (p.join == Some(own) <==>
                  mode.Cluster? || forall x :: x in scored && x.linked && x.alarm in sitOf ==> own <= sitOf[x.alarm])
            && (p.join != Some(own) ==> own in p.merge && p.join.value < own)
  {
    if mode.Components? {
      var sids := Linked(scored, sitOf, Some(own));
      assert own in sids;
      assert forall x :: x in scored && x.linked && x.alarm in sitOf ==> sitOf[x.alarm] in sids;
      assert Smallest(sids) != own ==> own in sids - {Smallest(sids)};
    }
  }

  /** In components mode the answer joins the oldest of the alarm's own situation and those of the alarms it is
      linked to, and folds all the others; with none of these it opens a new one. */
  lemma ComponentsAnswer(scored: seq<Scored>, sitOf: map<int, int>, own: Option<int>, sid: int)
    ensures var p := PlaceComponents(scored, sitOf, own);
            && (p.join == Some(sid) || sid in p.merge <==>
                  own == Some(sid) || exists x :: x in scored && x.linked && x.alarm in sitOf && sitOf[x.alarm] == sid)
            && (sid in p.merge ==> p.join.Some? && p.join.value < sid)
  {
  }

  /** Alarm 1 of situation 7, linked to alarm 2 of situation 3, is answered with situation 3. */
  lemma OwnMoves(params: Params, cross: Cross)
    ensures var p := Place(Components, params, cross, [Scored(2, 1.0, true)], map[1 := 7, 2 := 3], Some(7));
            p.join == Some(3) && 7 in p.merge
  {
    var scored, sitOf := [Scored(2, 1.0, true)], map[1 := 7, 2 := 3];
    assert scored[0] in scored;
    OwnMayMove(Components, params, cross, scored, sitOf, 7);
    ComponentsAnswer(scored, sitOf, Some(7), 3);
  }

  // ---------- the order of an answer ----------

  ghost predicate Rising(xs: seq<int>) {
    forall i, j :: 0 <= i < j < |xs| ==> xs[i] < xs[j]
  }

  /** The greater mean first, then the more pairs, then the smaller id; every situation once. */
  ghost predicate BestFirst(rows: seq<Row>) {
    forall i, j :: 0 <= i < j < |rows| ==>
      && rows[i].sid != rows[j].sid
      && (|| rows[i].mean > rows[j].mean
          || (rows[i].mean == rows[j].mean
              && (rows[i].pairs > rows[j].pairs || (rows[i].pairs == rows[j].pairs && rows[i].sid < rows[j].sid))))
  }

  lemma SortIntsRising(xs: seq<int>)
    requires Distinct(xs)
    ensures Rising(Sort(xs, AtMost))
  {
    SortSorts(xs, AtMost);
    SortDistinct(xs, AtMost);
    var sorted := Sort(xs, AtMost);
    assert forall i, j :: 0 <= i < j < |sorted| ==> AtMost(sorted[i], sorted[j]) && sorted[i] != sorted[j];
  }

  lemma RisingCons(x: int, xs: seq<int>)
    requires Rising(xs) && forall y :: y in xs ==> x < y
    ensures Rising([x] + xs)
  {
    assert forall i :: 0 <= i < |xs| ==> xs[i] in xs;
  }

  lemma {:induction false} AscendingRising(xs: set<int>)
    ensures Rising(Ascending(xs))
    decreases xs
  {
    if xs != {} {
      var m := Smallest(xs);
      AscendingRising(xs - {m});
      RisingCons(m, Ascending(xs - {m}));
    }
  }

  predicate Elsewhere(x: Row, y: Row) {
    x.sid != y.sid
  }

  lemma RankBestFirst(tallies: seq<Tally>)
    requires Tallied(tallies)
    ensures BestFirst(Rank(tallies))
  {
    var rows, ranked := Rows(tallies), Rank(tallies);
    AheadOrders(rows);
    SortSorts(rows, Ahead);
    SortPairwise(rows, Ahead, Elsewhere);
    assert forall i, j :: 0 <= i < j < |ranked| ==> Ahead(ranked[i], ranked[j]) && Elsewhere(ranked[i], ranked[j]);
  }

  lemma {:induction false} MergeListOnce(params: Params, cross: Cross, join: int, tallies: seq<Tally>, ranked: seq<Row>)
    requires BestFirst(ranked)
    ensures Distinct(MergeList(params, cross, join, tallies, ranked))
  {
    if ranked != [] {
      var shorter, sid := ranked[..|ranked| - 1], ranked[|ranked| - 1].sid;
      MergeListOnce(params, cross, join, tallies, shorter);
      MergeListMeets(params, cross, join, tallies, shorter, sid);
      var merges := MergeList(params, cross, join, tallies, shorter);
      assert sid !in merges;
      assert forall i :: 0 <= i < |merges| ==> merges[i] in merges;
    }
  }

  /** What the support list says of a row. */
  ghost predicate Explains(r: Row, scored: seq<Scored>, sitOf: map<int, int>) {
    var w := Weight(scored, sitOf, r.sid);
    w.pairs > 0 && r.pairs == w.pairs && r.mean * w.pairs as real == w.sum
  }

  lemma RowExplains(scored: seq<Scored>, sitOf: map<int, int>, r: Row)
    requires r in Rank(Support(scored, sitOf))
    ensures Explains(r, scored, sitOf)
  {
    hide Weight, Rank, Support, Mean;
    RankedRow(scored, sitOf, r);
    MeanTimes(Weight(scored, sitOf, r.sid));
  }

  lemma SupportTells(scored: seq<Scored>, sitOf: map<int, int>)
    ensures var ranked := Rank(Support(scored, sitOf));
            && BestFirst(ranked)
            && (forall sid :: (exists r :: r in ranked && r.sid == sid) <==> Weight(scored, sitOf, sid).pairs > 0)
            && forall r :: r in ranked ==> Explains(r, scored, sitOf)
  {
    var ranked := Rank(Support(scored, sitOf));
    RankBestFirst(Support(scored, sitOf));
    hide Weight, Rank, BestFirst;
    forall r | r in ranked
      ensures Explains(r, scored, sitOf)
    {
      RowExplains(scored, sitOf, r);
    }
    forall sid | Weight(scored, sitOf, sid).pairs > 0
      ensures exists r :: r in ranked && r.sid == sid
    {
      Ranked(scored, sitOf, sid);
    }
  }

  /** The situations to fold come in ascending order, each once; in cluster mode the support explains
      every situation scored against, each once, best first, by the sum of its evidence over its pairs. */
  lemma PlacementInOrder(mode: Mode, params: Params, cross: Cross, scored: seq<Scored>,
                         sitOf: map<int, int>, own: Option<int>)
    ensures var p := Place(mode, params, cross, scored, sitOf, own);
            && Rising(p.merge) && BestFirst(p.support)
            && (mode.Cluster? ==> forall sid :: (exists r :: r in p.support && r.sid == sid)
                                                <==> Weight(scored, sitOf, sid).pairs > 0)
            && forall r :: r in p.support ==> Explains(r, scored, sitOf)
  {
    hide Rank, Weight, Explains, Linked, MergeList;
    var p := Place(mode, params, cross, scored, sitOf, own);
    if mode.Components? {
      var sids := Linked(scored, sitOf, own);
      if sids != {} {
        AscendingRising(sids - {Smallest(sids)});
      }
    } else {
      var tallies := Support(scored, sitOf);
      SupportTells(scored, sitOf);
      if p.join != None {
        MergeListOnce(params, cross, p.join.value, tallies, Rank(tallies));
        SortIntsRising(MergeList(params, cross, p.join.value, tallies, Rank(tallies)));
      }
    }
  }
}
