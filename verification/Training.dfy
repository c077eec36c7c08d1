/**
 Choosing and re-weighting rows before a fit, `eval/synth/train.py`: a budget spent on whole activations,
 and the time-gap bands balanced by the square root of their share.
 */
module Training {
  import opened Dataset
  import opened Sums
  import opened Wrappers

  // ---------- the budget ----------

  /** What the rows of one activation share. */
  type Key = (string, real, string)

  function KeyOf(r: Row): Key {
    (r.stream, r.ts, r.incident)
  }

  function Count(rows: seq<Row>, k: Key): nat {
    if rows == [] then 0
    else Count(rows[..|rows| - 1], k) + if KeyOf(rows[|rows| - 1]) == k then 1 else 0
  }

  /** `[r for r in rows if key(r) in chosen]`. */
  function Of(rows: seq<Row>, chosen: set<Key>): seq<Row> {
    if rows == [] then []
    else
      var last, before := rows[|rows| - 1], Of(rows[..|rows| - 1], chosen);
      if KeyOf(last) in chosen then before + [last] else before
  }

  lemma {:induction false} OneMoreKey(rows: seq<Row>, chosen: set<Key>, k: Key)
    requires k !in chosen
    ensures |Of(rows, chosen + {k})| == |Of(rows, chosen)| + Count(rows, k)
  {
    if rows != [] {
      OneMoreKey(rows[..|rows| - 1], chosen, k);
    }
  }

  lemma {:induction false} NoKeys(rows: seq<Row>)
    ensures Of(rows, {}) == []
  {
    if rows != [] {
      NoKeys(rows[..|rows| - 1]);
    }
  }

  lemma {:induction false} Counted(rows: seq<Row>, k: Key)
    ensures Count(rows, k) > 0 <==> exists r :: r in rows && KeyOf(r) == k
  {
    if rows != [] {
      var rest, last := rows[..|rows| - 1], rows[|rows| - 1];
      assert rows == rest + [last];
      Counted(rows[..|rows| - 1], k);
      assert last in rows;
    }
  }

  method Counts(rows: seq<Row>) returns (counts: map<Key, nat>)
    ensures forall k :: k in counts <==> Count(rows, k) > 0
    ensures forall k :: k in counts ==> counts[k] == Count(rows, k)
  {
    counts := map[];
    for i := 0 to |rows|
      invariant forall k :: k in counts <==> Count(rows[..i], k) > 0
      invariant forall k :: k in counts ==> counts[k] == Count(rows[..i], k)
    {
      var k := KeyOf(rows[i]);
      assert rows[..i + 1][..i] == rows[..i];
      counts := counts[k := (if k in counts then counts[k] else 0) + 1];
    }
    assert rows[..|rows|] == rows;
  }

  ghost predicate KeysOf(keys: seq<Key>, rows: seq<Row>) {
    && (forall k :: k in keys <==> Count(rows, k) > 0)
    && forall i, j :: 0 <= i < j < |keys| ==> keys[i] != keys[j]
  }

  /** What a cap keeps: every activation wholly or not at all, in the rows' order and within the limit, and
      none is left out that would still have fitted. */
  ghost predicate Capped(kept: seq<Row>, rows: seq<Row>, limit: int, chosen: set<Key>) {
    && kept == Of(rows, chosen)
    && |kept| <= (if limit >= 0 then limit else 0)
    && forall k :: Count(rows, k) > 0 && k !in chosen ==> Count(rows, k) > limit - |kept|
  }

  /** Rows of one activation. */
  predicate Together(r: Row, s: Row) {
    r.stream == s.stream && r.ts == s.ts && r.incident == s.incident
  }

  /** Which of the rows have a chosen key. */
  function At(rows: seq<Row>, chosen: set<Key>): (at: seq<nat>)
    ensures forall i: nat :: i in at <==> i < |rows| && KeyOf(rows[i]) in chosen
    ensures forall i, j :: 0 <= i < j < |at| ==> at[i] < at[j]
  {
    if rows == [] then []
    else
      var n := |rows| - 1;
      var before := At(rows[..n], chosen);
      assert forall i :: 0 <= i < |before| ==> before[i] in before;
      if KeyOf(rows[n]) in chosen then before + [n] else before
  }

  lemma {:induction false} OfAt(rows: seq<Row>, chosen: set<Key>)
    ensures |Of(rows, chosen)| == |At(rows, chosen)|
    ensures forall i :: 0 <= i < |At(rows, chosen)| ==>
              At(rows, chosen)[i] < |rows| && Of(rows, chosen)[i] == rows[At(rows, chosen)[i]]
  {
    OfGrows(rows, chosen);
    hide Of, At, KeyOf;
    if rows != [] {
      var n := |rows| - 1;
      var rest := rows[..n];
      OfAt(rest, chosen);
      forall i | 0 <= i < |At(rest, chosen)|
        ensures At(rest, chosen)[i] < n && Of(rest, chosen)[i] == rows[At(rest, chosen)[i]]
      {
        assert rest[At(rest, chosen)[i]] == rows[At(rest, chosen)[i]];
      }
    }
  }

  lemma OfGrows(rows: seq<Row>, chosen: set<Key>)
    ensures rows == [] ==> Of(rows, chosen) == [] && At(rows, chosen) == []
    ensures rows != [] ==>
              var n := |rows| - 1;
              var counts := KeyOf(rows[n]) in chosen;
              && Of(rows, chosen) == Of(rows[..n], chosen) + (if counts then [rows[n]] else [])
              && At(rows, chosen) == At(rows[..n], chosen) + (if counts then [n] else [])
  {
  }

  ghost function Beside(rows: seq<Row>, r: Row): set<nat> {
    set i: nat | i < |rows| && Together(rows[i], r)
  }

  lemma BesideGrows(rows: seq<Row>, last: Row, r: Row)
    ensures Beside(rows + [last], r) == Beside(rows, r) + if Together(last, r) then {|rows|} else {}
    ensures |Beside(rows + [last], r)| == |Beside(rows, r)| + if Together(last, r) then 1 else 0
  {
    assert forall i: nat :: i < |rows| ==> (rows + [last])[i] == rows[i];
  }

  lemma {:induction false} CountTells(rows: seq<Row>, r: Row)
    ensures Count(rows, KeyOf(r)) == |Beside(rows, r)|
  {
    if rows != [] {
      var rest, last := rows[..|rows| - 1], rows[|rows| - 1];
      CountTells(rest, r);
      BesideGrows(rest, last, r);
      assert rows == rest + [last];
    }
  }

  /** What a cap keeps, told from the rows: some of them, in their order; of rows with one stream, time and
      incident all or none; no more than the limit; and none left out that, with those it stands beside, would
      still have fitted. */
  lemma CapTells(kept: seq<Row>, rows: seq<Row>, limit: int, chosen: set<Key>) returns (at: seq<nat>)
    requires Capped(kept, rows, limit, chosen)
    ensures |at| == |kept| <= (if limit < 0 then 0 else limit)
    ensures forall i, j :: 0 <= i < j < |at| ==> at[i] < at[j]
    ensures forall i :: 0 <= i < |at| ==> at[i] < |rows| && kept[i] == rows[at[i]]
    ensures forall i: nat, j: nat :: i < |rows| && j < |rows| && Together(rows[i], rows[j]) ==> (i in at <==> j in at)
    ensures forall i: nat :: i < |rows| && i !in at ==>
              |set j: nat | j < |rows| && Together(rows[j], rows[i])| + |kept| > limit
  {
    at := At(rows, chosen);
    OfAt(rows, chosen);
    forall i: nat | i < |rows| && i !in at
      ensures |set j: nat | j < |rows| && Together(rows[j], rows[i])| + |kept| > limit
    {
      CountTells(rows, rows[i]);
      Counted(rows, KeyOf(rows[i]));
    }
  }

  /** `_cap`; `keys` are the distinct keys as the shuffle orders them. */
  method Cap(rows: seq<Row>, limit: int, keys: seq<Key>) returns (kept: seq<Row>, ghost chosen: set<Key>)
    requires KeysOf(keys, rows)
    ensures Capped(kept, rows, limit, chosen)
    ensures |rows| <= limit ==> kept == rows
  {
    if |rows| <= limit {
      chosen := set k | k in keys;
      forall r | r in rows
        ensures KeyOf(r) in chosen
      {
        Counted(rows, KeyOf(r));
      }
      AllKeys(rows, chosen);
      return rows, chosen;
    }
    var counts := Counts(rows);
    var taken: set<Key> := {};
    var budget := limit;
    NoKeys(rows);
    for i := 0 to |keys|
      invariant forall k :: k in taken ==> k in keys[..i]
      invariant budget == limit - |Of(rows, taken)| && (budget >= 0 || taken == {})
      invariant forall k :: k in keys[..i] && k !in taken ==> Count(rows, k) > budget
    {
      var k := keys[i];
      assert keys[..i + 1] == keys[..i] + [k];
      assert k in keys && k !in keys[..i];
      if counts[k] <= budget {
        OneMoreKey(rows, taken, k);
        taken := taken + {k};
        budget := budget - counts[k];
      }
    }
    assert keys[..|keys|] == keys;
    kept, chosen := Of(rows, taken), taken;
  }

  lemma {:induction false} AllKeys(rows: seq<Row>, chosen: set<Key>)
    requires forall r :: r in rows ==> KeyOf(r) in chosen
    ensures Of(rows, chosen) == rows
  {
    if rows != [] {
      var rest, last := rows[..|rows| - 1], rows[|rows| - 1];
      assert rows == rest + [last];
      assert last in rows;
      AllKeys(rest, chosen);
    }
  }

  // ---------- the bands ----------

  /** A time-gap band and a label. */
  type Cell = (nat, int)

  const GAP_BANDS: seq<real> := [10.0, 60.0, 300.0, 1800.0]

  /** `sum(gap >= edge for edge in edges)`. */
  function Band(gap: real, edges: seq<real>): nat {
    if edges == [] then 0
    else Band(gap, edges[..|edges| - 1]) + if gap >= edges[|edges| - 1] then 1 else 0
  }

  function CellOf(r: Row): Cell
    requires r.x != []
  {
    (Band(r.x[0], GAP_BANDS), r.y)
  }

  /** A row's cell: its label, and which of the five bands its gap lies in. */
  lemma CellTells(r: Row)
    requires r.x != []
    ensures var gap := r.x[0];
            CellOf(r) == (if gap < 10.0 then 0 else if gap < 60.0 then 1 else if gap < 300.0 then 2
                          else if gap < 1800.0 then 3 else 4, r.y)
  {
    var gap := r.x[0];
    BandStep(gap, [], 10.0);
    BandStep(gap, [10.0], 60.0);
    BandStep(gap, [10.0, 60.0], 300.0);
    BandStep(gap, [10.0, 60.0, 300.0], 1800.0);
    assert [] + [10.0] == [10.0] && [10.0] + [60.0] == [10.0, 60.0];
    assert [10.0, 60.0] + [300.0] == [10.0, 60.0, 300.0];
    assert [10.0, 60.0, 300.0] + [1800.0] == GAP_BANDS;
  }

  lemma BandStep(gap: real, edges: seq<real>, edge: real)
    ensures Band(gap, edges + [edge]) == Band(gap, edges) + if gap >= edge then 1 else 0
  {
    assert (edges + [edge])[..|edges|] == edges;
  }

  ghost predicate Featured(rows: seq<Row>) {
    forall r :: r in rows ==> r.x != []
  }

  /** The weight of a cell's rows. */
  function CellMass(rows: seq<Row>, c: Cell): real
    requires forall r :: r in rows ==> r.x != []
  {
    if rows == [] then 0.0
    else
      var last := rows[|rows| - 1];
      assert last in rows;
      CellMass(rows[..|rows| - 1], c) + if CellOf(last) == c then last.w else 0.0
  }

  function Cells(rows: seq<Row>): set<Cell>
    requires forall r :: r in rows ==> r.x != []
  {
    set r | r in rows :: CellOf(r)
  }

  function Reweighted(rows: seq<Row>, factor: map<Cell, real>): seq<Row>
    requires forall r :: r in rows ==> r.x != [] && CellOf(r) in factor
  {
    if rows == [] then []
    else
      var last := rows[|rows| - 1];
      assert last in rows;
      Reweighted(rows[..|rows| - 1], factor) + [last.(w := Times(factor[CellOf(last)], last.w))]
  }

  ghost predicate MassesOf(mass: map<Cell, real>, rows: seq<Row>)
    requires forall r :: r in rows ==> r.x != []
  {
    mass.Keys == Cells(rows) && forall c :: c in mass ==> mass[c] == CellMass(rows, c)
  }

  lemma {:induction false} OutsideCells(rows: seq<Row>, c: Cell)
    requires forall r :: r in rows ==> r.x != []
    requires c !in Cells(rows)
    ensures CellMass(rows, c) == 0.0
  {
    if rows != [] {
      var rest, last := rows[..|rows| - 1], rows[|rows| - 1];
      assert rows == rest + [last] && last in rows;
      assert Cells(rows) == Cells(rest) + {CellOf(last)};
      OutsideCells(rest, c);
    }
  }

  /** `mass[c] = mass.get(c, 0.0) + w`. */
  function Plus(mass: map<Cell, real>, c: Cell, w: real): map<Cell, real> {
    mass[c := (if c in mass then mass[c] else 0.0) + w]
  }

  lemma CellGrows(rows: seq<Row>, r: Row, c: Cell)
    requires r.x != [] && forall x :: x in rows ==> x.x != []
    ensures forall x :: x in rows + [r] ==> x.x != []
    ensures CellMass(rows + [r], c) == CellMass(rows, c) + if CellOf(r) == c then r.w else 0.0
    ensures Cells(rows + [r]) == Cells(rows) + {CellOf(r)}
  {
    hide Band;
    assert (rows + [r])[..|rows|] == rows;
  }

  lemma MassesGrow(mass: map<Cell, real>, rows: seq<Row>, r: Row)
    requires r.x != [] && (forall x :: x in rows ==> x.x != []) && MassesOf(mass, rows)
    ensures forall x :: x in rows + [r] ==> x.x != []
    ensures MassesOf(Plus(mass, CellOf(r), r.w), rows + [r])
    ensures Mass(rows + [r]) == Mass(rows) + r.w
    ensures Total(Plus(mass, CellOf(r), r.w)) == Total(mass) + r.w
  {
    hide CellOf, CellMass, Cells, Total;
    var c := CellOf(r);
    assert (rows + [r])[..|rows|] == rows;
    CellGrows(rows, r, c);
    if c !in mass {
      OutsideCells(rows, c);
    }
    forall other | other in Plus(mass, c, r.w)
      ensures Plus(mass, c, r.w)[other] == CellMass(rows + [r], other)
    {
      CellGrows(rows, r, other);
    }
    TotalPut(mass, c, (if c in mass then mass[c] else 0.0) + r.w);
  }

  /** The cells' masses add up to the whole. */
  method Masses(rows: seq<Row>) returns (mass: map<Cell, real>)
    requires Featured(rows)
    ensures MassesOf(mass, rows) && Total(mass) == Mass(rows)
  {
    mass := map[];
    NoRows();
    hide MassesOf, Mass, CellOf;
    for i := 0 to |rows|
      invariant forall r :: r in rows[..i] ==> r.x != []
      invariant MassesOf(mass, rows[..i]) && Total(mass) == Mass(rows[..i])
    {
      assert rows[i] in rows;
      assert rows[..i + 1] == rows[..i] + [rows[i]];
      MassesGrow(mass, rows[..i], rows[i]);
      mass := Plus(mass, CellOf(rows[i]), rows[i].w);
    }
    assert rows[..|rows|] == rows;
  }

  lemma NoRows()
    ensures MassesOf(map[], []) && Mass([]) == 0.0
  {
  }

  lemma {:induction false} ReweightedKeeps(rows: seq<Row>, factor: map<Cell, real>)
    requires forall r :: r in rows ==> r.x != [] && CellOf(r) in factor
    ensures |Reweighted(rows, factor)| == |rows|
    ensures forall i :: 0 <= i < |rows| ==>
              Reweighted(rows, factor)[i] == rows[i].(w := Times(factor[CellOf(rows[i])], rows[i].w))
    ensures forall r :: r in Reweighted(rows, factor) ==> r.x != []
  {
    hide CellOf, Times;
    if rows != [] {
      var rest, last := rows[..|rows| - 1], rows[|rows| - 1];
      assert rows == rest + [last] && last in rows;
      ReweightedKeeps(rest, factor);
      var more := last.(w := Times(factor[CellOf(last)], last.w));
    }
  }

  lemma SameCell(r: Row, w: real)
    requires r.x != []
    ensures CellOf(r.(w := w)) == CellOf(r)
  {
  }

  /** Re-weighting multiplies each cell's mass by its factor. */
  lemma {:induction false} CellReweighted(rows: seq<Row>, factor: map<Cell, real>, c: Cell)
    requires forall r :: r in rows ==> r.x != [] && CellOf(r) in factor
    requires c in factor
    ensures forall r :: r in Reweighted(rows, factor) ==> r.x != []
    ensures CellMass(Reweighted(rows, factor), c) == Times(factor[c], CellMass(rows, c))
  {
    hide CellOf, Times, CellMass, Reweighted;
    ReweightedKeeps(rows, factor);
    if rows != [] {
      var rest, last := rows[..|rows| - 1], rows[|rows| - 1];
      assert rows == rest + [last] && last in rows;
      CellReweighted(rest, factor, c);
      LastReweighted(rest, last, factor, c);
      Distribute(factor[c], CellMass(rest, c), last.w);
    } else {
      NoneReweighted(factor, c);
      TimesZero(factor[c]);
    }
  }

  lemma NoneReweighted(factor: map<Cell, real>, c: Cell)
    ensures Reweighted([], factor) == [] && CellMass([], c) == 0.0
  {
  }

  lemma LastReweighted(rest: seq<Row>, last: Row, factor: map<Cell, real>, c: Cell)
    requires forall r :: r in rest + [last] ==> r.x != [] && CellOf(r) in factor
    requires c in factor && last.x != []
    ensures forall r :: r in Reweighted(rest, factor) + Reweighted(rest + [last], factor) + rest ==> r.x != []
    ensures CellMass(rest + [last], c) == CellMass(rest, c) + if CellOf(last) == c then last.w else 0.0
    ensures CellMass(Reweighted(rest + [last], factor), c)
            == CellMass(Reweighted(rest, factor), c) + if CellOf(last) == c then Times(factor[c], last.w) else 0.0
  {
    hide CellOf, Times, CellMass;
    assert last in rest + [last] && forall r :: r in rest ==> r in rest + [last];
    ReweightedKeeps(rest, factor);
    var more := last.(w := Times(factor[CellOf(last)], last.w));
    SameCell(last, more.w);
    CellGrows(rest, last, c);
    CellGrows(Reweighted(rest, factor), more, c);
    assert (rest + [last])[..|rest|] == rest;
  }

  lemma {:induction false} CellsKept(rows: seq<Row>, factor: map<Cell, real>)
    requires forall r :: r in rows ==> r.x != [] && CellOf(r) in factor
    ensures forall r :: r in Reweighted(rows, factor) ==> r.x != []
    ensures Cells(Reweighted(rows, factor)) == Cells(rows)
  {
    hide CellOf, Times, Cells, CellMass;
    ReweightedKeeps(rows, factor);
    if rows != [] {
      var rest, last := rows[..|rows| - 1], rows[|rows| - 1];
      assert rows == rest + [last] && last in rows;
      CellsKept(rest, factor);
      var more := last.(w := Times(factor[CellOf(last)], last.w));
      SameCell(last, more.w);
      CellGrows(rest, last, CellOf(last));
      CellGrows(Reweighted(rest, factor), more, CellOf(more));
    }
  }

  lemma {:induction false} MassIsTotal(rows: seq<Row>, mass: map<Cell, real>)
    requires (forall r :: r in rows ==> r.x != []) && MassesOf(mass, rows)
    ensures Total(mass) == Mass(rows)
  {
    hide CellOf, CellMass, MassesOf;
    NoRows();
    if rows == [] {
      SameMasses(mass, map[], rows);
    } else {
      var rest, last := rows[..|rows| - 1], rows[|rows| - 1];
      assert rows == rest + [last] && last in rows;
      var before := MassMap(rest);
      MassIsTotal(rest, before);
      MassesGrow(before, rest, last);
      SameMasses(mass, Plus(before, CellOf(last), last.w), rows);
    }
  }

  function MassMap(rows: seq<Row>): (mass: map<Cell, real>)
    requires forall r :: r in rows ==> r.x != []
    ensures MassesOf(mass, rows)
  {
    map c | c in Cells(rows) :: CellMass(rows, c)
  }

  lemma SameMasses(mass: map<Cell, real>, other: map<Cell, real>, rows: seq<Row>)
    requires (forall r :: r in rows ==> r.x != []) && MassesOf(mass, rows) && MassesOf(other, rows)
    ensures mass == other
  {
    hide CellOf, CellMass, Cells;
  }

  /** A square root, as far as it matters here: the positive one of every positive number. */
  ghost predicate IsRoot(root: real -> real) {
    forall v: real :: v > 0.0 ==> root(v) > 0.0 && Times(root(v), root(v)) == v
  }

  /** Re-weighted rows: nothing but weights changed, the same total, and the cells' new masses in
      proportion to the square roots of the old ones. */
  ghost predicate Balanced(out: seq<Row>, rows: seq<Row>)
    requires forall r :: r in rows ==> r.x != []
  {
    && |out| == |rows| && (forall i :: 0 <= i < |rows| ==> out[i] == rows[i].(w := out[i].w))
    && Mass(out) == Mass(rows)
    && (forall r :: r in out ==> r.x != [])
    && forall c, d :: c in Cells(rows) && d in Cells(rows) ==>
         && CellMass(out, c) > 0.0
         && AsRoots(CellMass(out, c), CellMass(out, d), CellMass(rows, c), CellMass(rows, d))
  }

  /** The squares of `a` and `b` are in the proportion of `c` and `d`. */
  predicate AsRoots(a: real, b: real, c: real, d: real) {
    a * a * d == b * b * c
  }

  /** What balancing keeps and what it changes, cell by cell: of any two, the squares of the new masses are in the
      proportion of the old masses. */
  lemma BalancedTells(out: seq<Row>, rows: seq<Row>, c: Cell, d: Cell)
    requires (forall r :: r in rows ==> r.x != []) && Balanced(out, rows) && c in Cells(rows) && d in Cells(rows)
    ensures forall r :: r in out ==> r.x != []
    ensures CellMass(out, c) * CellMass(out, c) * CellMass(rows, d)
            == CellMass(out, d) * CellMass(out, d) * CellMass(rows, c)
  {
    hide CellMass, Cells, Balanced, AsRoots, Mass;
    BalancedPair(out, rows, c, d);
    Squares(CellMass(out, c), CellMass(out, d), CellMass(rows, c), CellMass(rows, d));
  }

  lemma BalancedPair(out: seq<Row>, rows: seq<Row>, c: Cell, d: Cell)
    requires (forall r :: r in rows ==> r.x != []) && Balanced(out, rows) && c in Cells(rows) && d in Cells(rows)
    ensures forall r :: r in out ==> r.x != []
    ensures AsRoots(CellMass(out, c), CellMass(out, d), CellMass(rows, c), CellMass(rows, d))
  {
    hide CellMass, Cells, AsRoots, Mass;
  }

  lemma Squares(a: real, b: real, c: real, d: real)
    requires AsRoots(a, b, c, d)
    ensures a * a * d == b * b * c
  {
  }

  /** The factors, by which each cell comes to weigh `scale` times the root of its share. */
  ghost predicate Scales(factor: map<Cell, real>, mass: map<Cell, real>, total: real, scale: real, root: real -> real) {
    && factor.Keys == mass.Keys && scale > 0.0 && total > 0.0
    && forall c :: c in mass ==> mass[c] > 0.0 && Times(factor[c], mass[c]) == Times(scale, root(mass[c] / total))
  }

  lemma Proportion(a: real, b: real, ra: real, rb: real, total: real, scale: real)
    requires total > 0.0 && Times(ra, ra) == a / total && Times(rb, rb) == b / total
    ensures AsRoots(Times(scale, ra), Times(scale, rb), a, b)
  {
    assert a == total * (ra * ra) && b == total * (rb * rb);
  }

  lemma PositiveTimes(a: real, b: real)
    requires a > 0.0 && b > 0.0
    ensures Times(a, b) > 0.0
  {
  }

  /** What re-weighting is handed: each cell's factor brings it to `scale` times its root, and the roots
      are scaled back to the total. */
  ghost predicate Prepared(rows: seq<Row>, mass: map<Cell, real>, factor: map<Cell, real>,
                           roots: map<Cell, real>, scale: real, root: real -> real)
  {
    && (forall r :: r in rows ==> r.x != [] && CellOf(r) in factor) && MassesOf(mass, rows) && IsRoot(root)
    && Scales(factor, mass, Total(mass), scale, root)
    && roots.Keys == mass.Keys && (forall c :: c in roots ==> roots[c] == root(mass[c] / Total(mass)))
    && Times(scale, Total(roots)) == Total(mass)
  }

  lemma RebalancedCell(rows: seq<Row>, mass: map<Cell, real>, factor: map<Cell, real>, roots: map<Cell, real>,
                       scale: real, root: real -> real, c: Cell)
    requires Prepared(rows, mass, factor, roots, scale, root) && c in mass
    ensures forall r :: r in Reweighted(rows, factor) ==> r.x != []
    ensures CellMass(Reweighted(rows, factor), c) == Times(scale, roots[c]) > 0.0
    ensures CellMass(rows, c) == mass[c] && Times(roots[c], roots[c]) == mass[c] / Total(mass) && Total(mass) > 0.0
  {
    hide CellOf, CellMass, Cells, Mass, Total, Times, AsRoots, Reweighted, IsRoot;
    CellReweighted(rows, factor, c);
    ScaledCell(factor, mass, Total(mass), scale, root, c);
  }

  lemma RebalancedPair(rows: seq<Row>, mass: map<Cell, real>, factor: map<Cell, real>, roots: map<Cell, real>,
                       scale: real, root: real -> real, c: Cell, d: Cell)
    requires Prepared(rows, mass, factor, roots, scale, root) && c in mass && d in mass
    ensures forall r :: r in rows + Reweighted(rows, factor) ==> r.x != []
    ensures var out := Reweighted(rows, factor);
            && CellMass(out, c) > 0.0
            && AsRoots(CellMass(out, c), CellMass(out, d), CellMass(rows, c), CellMass(rows, d))
  {
    RebalancedCell(rows, mass, factor, roots, scale, root, c);
    RebalancedCell(rows, mass, factor, roots, scale, root, d);
    hide CellOf, CellMass, Cells, Mass, Total, Times, AsRoots, Reweighted, IsRoot;
    Proportion(mass[c], mass[d], roots[c], roots[d], Total(mass), scale);
  }

  lemma RebalancedTotal(rows: seq<Row>, mass: map<Cell, real>, factor: map<Cell, real>, roots: map<Cell, real>,
                        scale: real, root: real -> real)
    requires Prepared(rows, mass, factor, roots, scale, root)
    ensures Mass(Reweighted(rows, factor)) == Mass(rows)
  {
    hide CellOf, CellMass, Cells, Mass, Total, Times, Reweighted, IsRoot;
    var out := Reweighted(rows, factor);
    MassIsTotal(rows, mass);
    CellsKept(rows, factor);
    var after := map c | c in mass :: Times(scale, roots[c]);
    forall c | c in mass
      ensures after[c] == CellMass(out, c)
    {
      RebalancedCell(rows, mass, factor, roots, scale, root, c);
    }
    TotalScaled(roots, after, scale);
    MassIsTotal(out, after);
  }

  lemma Rebalanced(rows: seq<Row>, mass: map<Cell, real>, factor: map<Cell, real>, roots: map<Cell, real>,
                   scale: real, root: real -> real)
    requires Prepared(rows, mass, factor, roots, scale, root)
    ensures forall r :: r in rows ==> r.x != [] && CellOf(r) in factor
    ensures Balanced(Reweighted(rows, factor), rows)
  {
    hide CellOf, CellMass, Cells, Mass, Total, Times, AsRoots, Reweighted, IsRoot;
    ReweightedKeeps(rows, factor);
    RebalancedTotal(rows, mass, factor, roots, scale, root);
    MassKeys(mass, rows);
    forall c, d | c in Cells(rows) && d in Cells(rows)
      ensures var out := Reweighted(rows, factor);
              && CellMass(out, c) > 0.0
              && AsRoots(CellMass(out, c), CellMass(out, d), CellMass(rows, c), CellMass(rows, d))
    {
      RebalancedPair(rows, mass, factor, roots, scale, root, c, d);
    }
  }

  lemma MassKeys(mass: map<Cell, real>, rows: seq<Row>)
    requires (forall r :: r in rows ==> r.x != []) && MassesOf(mass, rows)
    ensures mass.Keys == Cells(rows) && forall c :: c in mass ==> mass[c] == CellMass(rows, c)
  {
  }

  lemma ScaledCell(factor: map<Cell, real>, mass: map<Cell, real>, total: real, scale: real, root: real -> real,
                   c: Cell)
    requires Scales(factor, mass, total, scale, root) && IsRoot(root) && c in mass
    ensures total > 0.0 && mass[c] > 0.0 && c in factor
    ensures Times(factor[c], mass[c]) == Times(scale, root(mass[c] / total)) > 0.0
    ensures Times(root(mass[c] / total), root(mass[c] / total)) == mass[c] / total
  {
    hide Times;
    ShareRoot(mass[c], total, root);
    PositiveTimes(scale, root(mass[c] / total));
  }

  lemma ShareRoot(mass: real, total: real, root: real -> real)
    requires mass > 0.0 && total > 0.0 && IsRoot(root)
    ensures root(mass / total) > 0.0 && Times(root(mass / total), root(mass / total)) == mass / total
  {
    assert mass / total > 0.0;
  }

  lemma Factor(mass: real, total: real, root: real, norm: real)
    requires mass > 0.0 && total > 0.0 && norm > 0.0
    ensures mass / total > 0.0
    ensures Times((root / norm) / (mass / total), mass) == Times(total / norm, root)
  {
    var share := mass / total;
    assert share * total == mass;
    var f := (root / norm) / share;
    assert f * share == root / norm;
    assert f * mass == (f * share) * total;
    assert (root / norm) * total == (total / norm) * root;
  }

  /** Rows that all weigh something leave no cell without weight. */
  lemma {:induction false} PositiveCells(rows: seq<Row>)
    requires Featured(rows) && forall r :: r in rows ==> r.w > 0.0
    ensures forall c :: (c in Cells(rows) ==> CellMass(rows, c) > 0.0) && CellMass(rows, c) >= 0.0
  {
    if rows != [] {
      var rest, last := rows[..|rows| - 1], rows[|rows| - 1];
      assert rows == rest + [last] && last in rows;
      PositiveCells(rest);
      forall c
        ensures (c in Cells(rows) ==> CellMass(rows, c) > 0.0) && CellMass(rows, c) >= 0.0
      {
        CellGrows(rest, last, c);
      }
    }
  }

  /** The rows that training builds never fail to be balanced. */
  lemma TrainingRowsBalance(rows: seq<Row>, logs: seq<Log>, window: Option<Window>)
    requires FromSide(rows, logs, window)
    requires forall log, act, c :: log in logs && act in log.acts && c in act.candidates ==> c.vec != []
    ensures Featured(rows) && forall c :: c in Cells(rows) ==> CellMass(rows, c) > 0.0
  {
    forall r | r in rows
      ensures r.x != [] && r.w > 0.0
    {
      var log :| log in logs && FromLog(r, log, window);
    }
    PositiveCells(rows);
  }

  /** The computation proper, once every cell weighs something. */
  method Reweigh(rows: seq<Row>, mass: map<Cell, real>, total: real, root: real -> real) returns (out: seq<Row>)
    requires Featured(rows) && IsRoot(root) && MassesOf(mass, rows) && total == Total(mass) > 0.0
    requires forall c :: c in mass ==> mass[c] > 0.0
    ensures Balanced(out, rows)
  {
    hide Total, Times, Mass, CellMass, CellOf, Balanced, IsRoot;
    forall c | c in mass
      ensures mass[c] > 0.0 && mass[c] / total > 0.0
    {
      ShareRoot(mass[c], total, root);
    }
    var roots := map c | c in mass :: root(mass[c] / total);
    var norm := Summed(roots);
    RootsPositive(mass, total, root, roots);
    var factor := map c | c in mass :: (roots[c] / norm) / (mass[c] / total);
    FactorsScale(mass, total, root, roots, norm, factor);
    Scale(total, norm);
    Rebalanced(rows, mass, factor, roots, total / norm, root);
    out := Reweighted(rows, factor);
  }

  /** What re-weighting may come to: rows; the division by zero of a cell that weighs nothing among rows
      that weigh something; or, of a cell that weighs less than nothing, a square root that is not real. */
  datatype Balance = Rows(rows: seq<Row>) | DividedByZero | NotReal

  /** `balance_gaps`. */
  method BalanceGaps(rows: seq<Row>, root: real -> real) returns (out: Balance)
    requires Featured(rows) && IsRoot(root)
    ensures Mass(rows) <= 0.0 ==> out == Rows(rows)
    ensures Mass(rows) > 0.0 ==>
              (out == DividedByZero <==> exists c :: c in Cells(rows) && CellMass(rows, c) == 0.0)
    ensures Mass(rows) > 0.0 ==>
              (out.Rows? <==> forall c :: c in Cells(rows) ==> CellMass(rows, c) > 0.0)
    ensures Mass(rows) > 0.0 && out.Rows? ==> Balanced(out.rows, rows)
  {
    hide Total, Times, Mass, CellMass, CellOf, Balanced, IsRoot;
    var mass := Masses(rows);
    MassKeys(mass, rows);
    var total := Summed(mass);
    if total <= 0.0 {
      return Rows(rows);
    }
    if c :| c in mass && mass[c] == 0.0 {
      return DividedByZero;
    }
    if c :| c in mass && mass[c] < 0.0 {
      return NotReal;
    }
    var balanced := Reweigh(rows, mass, total, root);
    return Rows(balanced);
  }

  lemma RootsPositive(mass: map<Cell, real>, total: real, root: real -> real, roots: map<Cell, real>)
    requires total == Total(mass) > 0.0 && IsRoot(root)
    requires forall c :: c in mass ==> mass[c] > 0.0
    requires roots.Keys == mass.Keys && forall c :: c in roots ==> roots[c] == root(mass[c] / total)
    ensures Total(roots) > 0.0
  {
    hide Total, IsRoot;
    NoTotal(mass);
    forall c | c in roots
      ensures roots[c] > 0.0
    {
      ShareRoot(mass[c], total, root);
    }
    assert roots.Keys != {};
    TotalPositive(roots);
  }

  lemma FactorsScale(mass: map<Cell, real>, total: real, root: real -> real, roots: map<Cell, real>, norm: real,
                     factor: map<Cell, real>)
    requires total > 0.0 && norm > 0.0 && (forall c :: c in mass ==> mass[c] > 0.0 && mass[c] / total > 0.0)
    requires roots.Keys == mass.Keys && forall c :: c in roots ==> roots[c] == root(mass[c] / total)
    requires factor == map c | c in mass :: (roots[c] / norm) / (mass[c] / total)
    ensures Scales(factor, mass, total, total / norm, root)
  {
    hide Times;
    Scale(total, norm);
    forall c | c in mass
      ensures Times(factor[c], mass[c]) == Times(total / norm, root(mass[c] / total))
    {
      Factor(mass[c], total, roots[c], norm);
    }
  }

  lemma NoTotal(mass: map<Cell, real>)
    requires Total(mass) > 0.0
    ensures mass != map[]
  {
  }

  lemma Scale(total: real, norm: real)
    requires total > 0.0 && norm > 0.0
    ensures total / norm > 0.0 && Times(total / norm, norm) == total
  {
  }

  /** `sum(m.values())`. */
  method Summed(m: map<Cell, real>) returns (total: real)
    ensures total == Total(m)
  {
    total := 0.0;
    var left := m.Keys;
    ghost var seen: map<Cell, real> := map[];
    while left != {}
      invariant left !! seen.Keys && left + seen.Keys == m.Keys
      invariant forall c :: c in seen ==> seen[c] == m[c]
      invariant total == Total(seen)
      decreases left
    {
      var c :| c in left;
      TotalPut(seen, c, m[c]);
      total := total + m[c];
      left, seen := left - {c}, seen[c := m[c]];
    }
    assert seen == m;
  }

  /** A row that weighs nothing, alone in its cell beside one that weighs something. */
  lemma ZeroCell()
    ensures var rows := [Row([5.0], 1, 1.0, "s", "i", "f", 0.0), Row([5.0], 0, 0.0, "s", "i", "f", 0.0)];
            Featured(rows) && Mass(rows) > 0.0 && exists c :: c in Cells(rows) && CellMass(rows, c) == 0.0
  {
    var a, b := Row([5.0], 1, 1.0, "s", "i", "f", 0.0), Row([5.0], 0, 0.0, "s", "i", "f", 0.0);
    hide Band;
    assert [a, b] == [a] + [b] && [a] == [] + [a];
    assert [a, b][..1] == [a] && [a][..0] == [];
    CellGrows([], a, CellOf(b));
    CellGrows([a], b, CellOf(b));
    assert CellOf(b) in Cells([a, b]) && CellMass([], CellOf(b)) == 0.0;
  }
}
