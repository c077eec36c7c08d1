/**
 `Grouper` as the source keeps it: a dictionary of dictionaries whose entries for `(a, b)` and
 `(b, a)` are one shared, mutable accumulator. The class invariant is that sharing - and that no
 other two entries share - and every method is proved against the value view of `Grouping`.
 */
module GrouperObject {
  import opened Wrappers
  import opened Grouping
  import opened Sorting

  /** The two-element list `[sum of evidence, pairs]`. */
  class Acc {
    var sum: real
    var pairs: int

    constructor (sum: real, pairs: int)
      ensures this.sum == sum && this.pairs == pairs
    {
      this.sum, this.pairs := sum, pairs;
    }
  }

  type Table = map<int, map<int, Acc>>

  ghost predicate Has(c: Table, a: int, b: int) {
    a in c && b in c[a]
  }

  function Entries(c: Table, a: int): map<int, Acc> {
    if a in c then c[a] else map[]
  }

  ghost predicate SameAcc(c: Table, a: int, b: int, x: int, y: int) {
    Has(c, a, b) && Has(c, x, y) && c[a][b] == c[x][y]
  }

  /** One accumulator per unordered pair of distinct situations, reachable from both ends. */
  ghost predicate Shared(c: Table) {
    && (forall a, b {:trigger Has(c, a, b)} :: Has(c, a, b) ==> a != b && Has(c, b, a) && c[b][a] == c[a][b])
    && (forall a, b, x, y {:trigger SameAcc(c, a, b, x, y)} :: SameAcc(c, a, b, x, y) ==>
          (a == x && b == y) || (a == y && b == x))
  }

  ghost function PairsOf(c: Table): set<(int, int)> {
    set a, b | a in c && b in c[a] :: (a, b)
  }

  lemma PairsMeet(c: Table)
    ensures forall p: (int, int) :: p in PairsOf(c) <==> Has(c, p.0, p.1)
  {
    forall p: (int, int) | Has(c, p.0, p.1)
      ensures p in PairsOf(c)
    {
      assert p.0 in c && p.1 in c[p.0] && p == (p.0, p.1);
    }
  }

  ghost function AccAt(c: Table, p: (int, int)): Acc
    requires p in PairsOf(c)
  {
    c[p.0][p.1]
  }

  ghost function AccsOf(c: Table): set<Acc> {
    set p | p in PairsOf(c) :: AccAt(c, p)
  }

  ghost function Value(acc: Acc): Ev
    reads acc
  {
    Ev(acc.sum, acc.pairs)
  }

  /** The evidence a table holds, as a value. */
  ghost function ViewOf(c: Table): Cross
    reads AccsOf(c)
  {
    map p | p in PairsOf(c) :: Value(AccAt(c, p))
  }

  lemma ViewSymmetric(c: Table)
    requires Shared(c)
    ensures Symmetric(ViewOf(c))
  {
    ViewMeets(c);
  }

  lemma ViewMeets(c: Table)
    ensures forall p: (int, int) :: p in ViewOf(c) <==> Has(c, p.0, p.1)
    ensures forall p: (int, int) :: p in ViewOf(c) ==> ViewOf(c)[p] == Value(c[p.0][p.1])
  {
    PairsMeet(c);
  }

  // ---------- forgetting ----------

  function Dropped(c: Table, sid: int): Table {
    map a | a in c && a != sid :: c[a] - {sid}
  }

  lemma DroppedHas(c: Table, sid: int)
    ensures forall a, b {:trigger Has(Dropped(c, sid), a, b)} ::
              Has(Dropped(c, sid), a, b) <==> Has(c, a, b) && a != sid && b != sid
    ensures forall a, b {:trigger Has(Dropped(c, sid), a, b)} ::
              Has(Dropped(c, sid), a, b) ==> Dropped(c, sid)[a][b] == c[a][b]
  {
  }

  lemma DroppedShared(c: Table, sid: int)
    requires Shared(c)
    ensures Shared(Dropped(c, sid))
  {
    var d := Dropped(c, sid);
    DroppedHas(c, sid);
    hide Dropped;
    forall a, b, x, y | SameAcc(d, a, b, x, y)
      ensures (a == x && b == y) || (a == y && b == x)
    {
      assert SameAcc(c, a, b, x, y);
    }
    forall a, b | Has(d, a, b)
      ensures a != b && Has(d, b, a) && d[b][a] == d[a][b]
    {
      assert Has(c, a, b);
    }
  }

  lemma DroppedMeets(c: Table, sid: int)
    requires Shared(c)
    ensures Shared(Dropped(c, sid)) && AccsOf(Dropped(c, sid)) <= AccsOf(c)
    ensures ViewOf(Dropped(c, sid)) == Forget(ViewOf(c), {sid})
  {
    var d := Dropped(c, sid);
    DroppedShared(c, sid);
    DroppedHas(c, sid);
    hide Dropped, Shared;
    PairsMeet(c);
    PairsMeet(d);
    forall p | p in PairsOf(d)
      ensures p in PairsOf(c) && AccAt(d, p) == AccAt(c, p)
    {
      assert Has(d, p.0, p.1);
    }
    ViewMeets(c);
    ViewMeets(d);
    hide PairsOf, ViewOf;
    var v, f := ViewOf(d), Forget(ViewOf(c), {sid});
    forall p: (int, int)
      ensures p in v <==> p in f
      ensures p in v ==> v[p] == f[p]
    {
      assert Has(d, p.0, p.1) <==> Has(c, p.0, p.1) && p.0 != sid && p.1 != sid;
    }
  }

  /** The table when `sid` is gone and so are the entries of `done` towards it. */
  function PartDropped(c: Table, sid: int, done: set<int>): Table {
    map a | a in c && a != sid :: if a in done then c[a] - {sid} else c[a]
  }

  lemma PartDroppedNone(c: Table, sid: int)
    ensures PartDropped(c, sid, {}) == c - {sid}
  {
  }

  lemma PartDroppedMore(c: Table, sid: int, done: set<int>, other: int)
    requires other !in done
    ensures var d := PartDropped(c, sid, done);
            PartDropped(c, sid, done + {other}) == if other in d then d[other := d[other] - {sid}] else d
  {
  }

  lemma PartDroppedAll(c: Table, sid: int)
    requires Shared(c)
    ensures PartDropped(c, sid, Entries(c, sid).Keys) == Dropped(c, sid)
  {
    NothingBack(c, sid);
  }

  lemma NothingBack(c: Table, sid: int)
    requires Shared(c)
    ensures forall a :: a in c && a !in Entries(c, sid) ==> c[a] - {sid} == c[a]
  {
    forall a | a in c && a !in Entries(c, sid)
      ensures c[a] - {sid} == c[a]
    {
      assert Has(c, a, sid) ==> Has(c, sid, a);
    }
  }

  // ---------- folding one situation into another ----------

  /** The entries once the evidence of `src` towards `done` has been handed to `dst`. */
  ghost predicate FoldedHas(c: Table, dst: int, src: int, done: set<int>, a: int, b: int) {
    && a != src
    && (if b == src then Has(c, a, src) && a !in done
        else || Has(c, a, b)
             || (a == dst && b != dst && b in done && Has(c, src, b))
             || (b == dst && a != dst && a in done && Has(c, src, a)))
  }

  ghost predicate Folded(c: Table, d: Table, dst: int, src: int, done: set<int>) {
    && dst in d && src !in d
    && (forall a, b :: Has(d, a, b) <==> FoldedHas(c, dst, src, done, a, b))
    && (forall a, b :: Has(d, a, b) && Has(c, a, b) ==> d[a][b] == c[a][b])
    && (forall b :: Has(d, dst, b) && !Has(c, dst, b) ==> Has(c, src, b) && d[dst][b] == c[src][b])
    && (forall a :: Has(d, a, dst) && !Has(c, a, dst) ==> Has(c, src, a) && d[a][dst] == c[src][a])
  }

  /** What the accumulators of a table hold. */
  ghost function Held(c: Table): map<Acc, Ev>
    reads AccsOf(c)
  {
    map acc | acc in AccsOf(c) :: Value(acc)
  }

  lemma HeldMeets(c: Table)
    ensures Held(c).Keys == AccsOf(c) && forall acc :: acc in AccsOf(c) ==> Held(c)[acc] == Value(acc)
    ensures forall acc :: acc in AccsOf(c) ==> allocated(acc)
  {
  }

  /** What they hold meanwhile - `v` is the view before the fold: `dst` has the evidence of `src`
      towards `done` added to its own, the others hold what they held. */
  ghost predicate FoldedValues(c: Table, v: Cross, dst: int, src: int, done: set<int>, held: map<Acc, Ev>) {
    && (forall a, b {:trigger Has(c, a, b)} :: Has(c, a, b) ==> c[a][b] in held)
    && OthersHold(c, v, dst, held)
    && SurvivorHolds(c, v, dst, src, done, held)
  }

  ghost predicate OthersHold(c: Table, v: Cross, dst: int, held: map<Acc, Ev>) {
    forall a, b {:trigger Has(c, a, b)} :: Has(c, a, b) && a != dst && b != dst && c[a][b] in held ==>
      held[c[a][b]] == At(v, a, b)
  }

  ghost predicate SurvivorHolds(c: Table, v: Cross, dst: int, src: int, done: set<int>, held: map<Acc, Ev>) {
    forall b {:trigger Has(c, dst, b)} :: Has(c, dst, b) && c[dst][b] in held ==>
      held[c[dst][b]] ==
      if b in done && b != src then Plus(At(v, dst, b), At(v, src, b)) else At(v, dst, b)
  }

  lemma AccsMeet(c: Table)
    ensures forall a, b :: Has(c, a, b) ==> c[a][b] in AccsOf(c)
  {
    PairsMeet(c);
    forall a, b | Has(c, a, b)
      ensures c[a][b] in AccsOf(c)
    {
      assert AccAt(c, (a, b)) in AccsOf(c);
    }
  }

  /** Where an accumulator of the folded table was before. */
  ghost function Origin(c: Table, dst: int, src: int, a: int, b: int): (int, int) {
    if Has(c, a, b) then (a, b) else if a == dst then (src, b) else (src, a)
  }

  lemma FoldedDone(c: Table, d: Table, dst: int, src: int)
    requires Shared(c) && dst != src && Folded(c, d, dst, src, Entries(c, src).Keys)
    ensures dst in d && d[dst := d[dst] - {src}] == d
  {
    assert !Has(d, dst, src);
    assert d[dst] - {src} == d[dst];
  }

  lemma FoldedShared(c: Table, d: Table, dst: int, src: int)
    requires Shared(c) && dst != src && Folded(c, d, dst, src, Entries(c, src).Keys)
    ensures Shared(d)
  {
    forall a, b, x, y | SameAcc(d, a, b, x, y)
      ensures (a == x && b == y) || (a == y && b == x)
    {
      var o, q := Origin(c, dst, src, a, b), Origin(c, dst, src, x, y);
      assert FoldedHas(c, dst, src, Entries(c, src).Keys, a, b);
      assert FoldedHas(c, dst, src, Entries(c, src).Keys, x, y);
      assert SameAcc(c, o.0, o.1, q.0, q.1);
    }
    forall a, b | Has(d, a, b)
      ensures a != b && Has(d, b, a) && d[b][a] == d[a][b]
    {
      assert FoldedHas(c, dst, src, Entries(c, src).Keys, a, b);
      assert FoldedHas(c, dst, src, Entries(c, src).Keys, b, a);
    }
  }

  lemma FoldedAccs(c: Table, d: Table, dst: int, src: int, done: set<int>)
    requires Folded(c, d, dst, src, done)
    ensures AccsOf(d) <= AccsOf(c)
  {
    PairsMeet(d);
    AccsMeet(c);
    forall acc | acc in AccsOf(d)
      ensures acc in AccsOf(c)
    {
      var p :| p in PairsOf(d) && acc == AccAt(d, p);
      assert Has(d, p.0, p.1);
    }
  }

  function Started(c: Table, dst: int, src: int): Table {
    if dst in c - {src} then c - {src} else (c - {src})[dst := map[]]
  }

  lemma FoldedStart(c: Table, v: Cross, dst: int, src: int, held: map<Acc, Ev>)
    requires Shared(c) && dst != src && v == ViewOf(c) && held == Held(c)
    ensures Folded(c, Started(c, dst, src), dst, src, {}) && FoldedValues(c, v, dst, src, {}, held)
    ensures Symmetric(v) && forall p: (int, int) :: p in v <==> Has(c, p.0, p.1)
  {
    ViewMeets(c);
    ViewSymmetric(c);
    AccsMeet(c);
    StartedFolds(c, dst, src);
    forall a, b | Has(c, a, b)
      ensures held[c[a][b]] == At(v, a, b)
    {
      assert (a, b) in v;
    }
  }

  lemma StartedIs(c: Table, d: Table, dst: int, src: int)
    requires d == if dst in c - {src} then c - {src} else (c - {src})[dst := map[]]
    ensures d == Started(c, dst, src)
  {
  }

  lemma StartedFolds(c: Table, dst: int, src: int)
    requires Shared(c) && dst != src
    ensures Folded(c, Started(c, dst, src), dst, src, {})
  {
  }

  /** The effect on the table of handling one entry. */
  ghost predicate Handled(d: Table, d': Table, dst: int, src: int, other: int, acc: Acc) {
    && dst in d' && src !in d'
    && (forall a, b :: Has(d', a, b) <==>
          || (Has(d, a, b) && !(a == other && b == src))
          || (other != dst && ((a == dst && b == other) || (a == other && b == dst))))
    && (forall a, b :: Has(d', a, b) ==> d'[a][b] == if Has(d, a, b) then d[a][b] else acc)
  }

  /** One entry of `src` handed to `dst`, unless `dst` has one of its own. */
  function HandOver(c: Table, dst: int, src: int, other: int, acc: Acc): Table
    requires dst in c
  {
    var d := if other in c then c[other := c[other] - {src}] else c;
    if other == dst || other in d[dst] then d
    else
      var e := d[dst := d[dst][other := acc]];
      e[other := Entries(e, other)[dst := acc]]
  }

  lemma HandOverHandles(d: Table, dst: int, src: int, other: int, acc: Acc)
    requires dst in d && other != src && dst != src && src !in d
    requires other != dst ==> (Has(d, dst, other) <==> Has(d, other, dst))
    ensures Handled(d, HandOver(d, dst, src, other, acc), dst, src, other, acc)
  {
    var d' := HandOver(d, dst, src, other, acc);
    forall a, b
      ensures Has(d', a, b) <==>
              || (Has(d, a, b) && !(a == other && b == src))
              || (other != dst && ((a == dst && b == other) || (a == other && b == dst)))
      ensures Has(d', a, b) ==> d'[a][b] == if Has(d, a, b) then d[a][b] else acc
    {
    }
  }

  lemma HandOverReturns(d: Table, src: int, other: int, acc: Acc)
    requires src in d && other != src && !Has(d, src, other)
    ensures HandedBack(d, HandOver(d, src, src, other, acc), src, other, acc)
  {
    var d' := HandOver(d, src, src, other, acc);
    forall a, b
      ensures Has(d', a, b) <==> Has(d, a, b) || (a == src && b == other) || (a == other && b == src)
      ensures Has(d', a, b) ==>
                d'[a][b] == if (a == src && b == other) || (a == other && b == src) then acc else d[a][b]
    {
    }
  }

  lemma FoldedStep(c: Table, d: Table, d': Table, dst: int, src: int, done: set<int>, other: int)
    requires Shared(c) && dst != src && Has(c, src, other) && other !in done
    requires Folded(c, d, dst, src, done) && Handled(d, d', dst, src, other, c[src][other])
    ensures Folded(c, d', dst, src, done + {other})
  {
    forall a, b
      ensures Has(d', a, b) <==> FoldedHas(c, dst, src, done + {other}, a, b)
    {
    }
  }

  // ---------- folding a situation into itself ----------

  /** `src` has got the entries of `done` back, and everybody else's are as they were. */
  ghost predicate Returned(c: Table, d: Table, src: int, done: set<int>) {
    && src in d
    && (forall a, b :: Has(d, a, b) <==> Has(c, a, b) && (a == src ==> b in done))
    && (forall a, b :: Has(d, a, b) ==> d[a][b] == c[a][b])
  }

  ghost predicate HandedBack(d: Table, d': Table, src: int, other: int, acc: Acc) {
    && src in d'
    && (forall a, b :: Has(d', a, b) <==> Has(d, a, b) || (a == src && b == other) || (a == other && b == src))
    && (forall a, b :: Has(d', a, b) ==>
          d'[a][b] == if (a == src && b == other) || (a == other && b == src) then acc else d[a][b])
  }

  lemma ReturnedStart(c: Table, src: int)
    requires Shared(c)
    ensures Returned(c, Started(c, src, src), src, {})
  {
  }

  lemma ReturnedSees(c: Table, d: Table, src: int, done: set<int>, other: int)
    requires Shared(c) && Returned(c, d, src, done) && Has(c, src, other) && other !in done
    ensures src in d && other != src && !Has(d, src, other)
  {
  }

  lemma ReturnedStep(c: Table, d: Table, d': Table, src: int, done: set<int>, other: int)
    requires Shared(c) && Has(c, src, other) && Returned(c, d, src, done)
    requires HandedBack(d, d', src, other, c[src][other])
    ensures Returned(c, d', src, done + {other})
  {
    assert Has(c, other, src) && c[other][src] == c[src][other];
  }

  lemma ReturnedDone(c: Table, d: Table, src: int)
    requires Shared(c) && Returned(c, d, src, Entries(c, src).Keys)
    ensures src in d && d[src := d[src] - {src}] == d
  {
    assert !Has(d, src, src);
    assert d[src] - {src} == d[src];
  }

  lemma ReturnedView(c: Table, d: Table, v: Cross, src: int)
    requires Shared(c) && v == ViewOf(c) && Returned(c, d, src, Entries(c, src).Keys)
    ensures Shared(d) && ViewOf(d) == v == Grouping.Fold(v, src, src) && AccsOf(d) <= AccsOf(c)
  {
    PairsMeet(c);
    PairsMeet(d);
    forall a, b
      ensures Has(d, a, b) <==> Has(c, a, b)
    {
    }
    ReturnedShared(c, d);
    assert PairsOf(d) == PairsOf(c);
    assert forall p :: p in PairsOf(d) ==> AccAt(d, p) == AccAt(c, p);
  }

  lemma ReturnedShared(c: Table, d: Table)
    requires Shared(c) && (forall a, b :: Has(d, a, b) <==> Has(c, a, b))
    requires forall a, b :: Has(d, a, b) ==> d[a][b] == c[a][b]
    ensures Shared(d)
  {
    forall a, b, x, y | SameAcc(d, a, b, x, y)
      ensures (a == x && b == y) || (a == y && b == x)
    {
      assert SameAcc(c, a, b, x, y);
    }
  }

  /** The effect on the accumulators of handling one entry. */
  ghost predicate Added(c: Table, dst: int, src: int, other: int, held: map<Acc, Ev>, held': map<Acc, Ev>)
    requires Has(c, src, other)
  {
    && held'.Keys == held.Keys && c[src][other] in held
    && (forall acc :: acc in held && !(other != dst && Has(c, dst, other) && acc == c[dst][other]) ==>
          held'[acc] == held[acc])
    && (other != dst && Has(c, dst, other) ==>
          c[dst][other] in held && held'[c[dst][other]] == Plus(held[c[dst][other]], held[c[src][other]]))
  }

  lemma OnlyThat(c: Table, dst: int, other: int, a: int, b: int)
    requires Shared(c) && Has(c, dst, other) && Has(c, a, b) && c[a][b] == c[dst][other]
    ensures (a == dst && b == other) || (a == other && b == dst)
  {
    assert SameAcc(c, a, b, dst, other);
  }

  lemma OthersKept(c: Table, v: Cross, dst: int, src: int, other: int, held: map<Acc, Ev>, held': map<Acc, Ev>)
    requires Shared(c) && Has(c, src, other) && Added(c, dst, src, other, held, held')
    requires OthersHold(c, v, dst, held)
    ensures OthersHold(c, v, dst, held')
  {
    forall a, b | Has(c, a, b) && a != dst && b != dst && c[a][b] in held'
      ensures held'[c[a][b]] == At(v, a, b)
    {
      if other != dst && Has(c, dst, other) && c[a][b] == c[dst][other] {
        OnlyThat(c, dst, other, a, b);
      }
    }
  }

  lemma SharedAt(c: Table, a: int, b: int)
    requires Shared(c) && Has(c, a, b)
    ensures a != b && Has(c, b, a) && c[b][a] == c[a][b]
  {
  }

  lemma SurvivorGainsAt(c: Table, v: Cross, dst: int, src: int, done: set<int>, other: int,
                        held: map<Acc, Ev>, held': map<Acc, Ev>, b: int)
    requires Shared(c) && dst != src && Has(c, src, other) && other !in done
    requires Added(c, dst, src, other, held, held')
    requires other != dst ==> held[c[src][other]] == At(v, src, other)
    requires Has(c, dst, b) && c[dst][b] in held
    requires held[c[dst][b]] == if b in done && b != src then Plus(At(v, dst, b), At(v, src, b)) else At(v, dst, b)
    ensures held'[c[dst][b]] ==
            if b in done + {other} && b != src then Plus(At(v, dst, b), At(v, src, b)) else At(v, dst, b)
  {
    hide Shared;
    SharedAt(c, src, other);
    SharedAt(c, dst, b);
    if b != other && other != dst && Has(c, dst, other) && c[dst][b] == c[dst][other] {
      OnlyThat(c, dst, other, dst, b);
    }
  }

  lemma SurvivorGains(c: Table, v: Cross, dst: int, src: int, done: set<int>, other: int,
                      held: map<Acc, Ev>, held': map<Acc, Ev>)
    requires Shared(c) && dst != src && Has(c, src, other) && other !in done
    requires Added(c, dst, src, other, held, held')
    requires OthersHold(c, v, dst, held) && SurvivorHolds(c, v, dst, src, done, held)
    ensures SurvivorHolds(c, v, dst, src, done + {other}, held')
  {
    hide Shared;
    SharedAt(c, src, other);
    forall b | Has(c, dst, b) && c[dst][b] in held'
      ensures held'[c[dst][b]] ==
              if b in done + {other} && b != src then Plus(At(v, dst, b), At(v, src, b)) else At(v, dst, b)
    {
      SurvivorGainsAt(c, v, dst, src, done, other, held, held', b);
    }
  }

  /** What handling an entry relies on. */
  lemma StepFolds(c: Table, v: Cross, d: Table, d': Table, dst: int, src: int, done: set<int>, other: int,
                  held: map<Acc, Ev>, held': map<Acc, Ev>)
    requires Shared(c) && dst != src && Has(c, src, other) && other !in done
    requires Folded(c, d, dst, src, done) && FoldedValues(c, v, dst, src, done, held)
    requires Handled(d, d', dst, src, other, c[src][other]) && Added(c, dst, src, other, held, held')
    ensures Folded(c, d', dst, src, done + {other}) && FoldedValues(c, v, dst, src, done + {other}, held')
  {
    hide Shared, Folded, OthersHold, SurvivorHolds, Handled;
    FoldedStep(c, d, d', dst, src, done, other);
    OthersKept(c, v, dst, src, other, held, held');
    SurvivorGains(c, v, dst, src, done, other, held, held');
  }

  lemma FoldedSees(c: Table, d: Table, dst: int, src: int, done: set<int>, other: int)
    requires Shared(c) && dst != src && Has(c, src, other) && other !in done
    requires Folded(c, d, dst, src, done)
    ensures dst in d && src !in d && other != src
    ensures other != dst ==> (Has(d, dst, other) <==> Has(c, dst, other))
    ensures other != dst ==> (Has(d, other, dst) <==> Has(c, dst, other))
    ensures other != dst && Has(c, dst, other) ==>
              d[dst][other] == c[dst][other] && d[other][dst] == c[dst][other] && c[dst][other] != c[src][other]
  {
    assert Has(c, other, src);
    if other != dst && Has(c, dst, other) && c[dst][other] == c[src][other] {
      OnlyThat(c, dst, other, src, other);
    }
  }

  lemma FoldedKeys(c: Table, d: Table, v: Cross, dst: int, src: int, p: (int, int))
    requires Shared(c) && dst != src && Folded(c, d, dst, src, Entries(c, src).Keys)
    requires forall q: (int, int) :: q in v <==> Has(c, q.0, q.1)
    ensures Has(d, p.0, p.1) <==> p in Fold(v, dst, src)
  {
    if p in Fold(v, dst, src) {
      FoldKeyShape(v, dst, src, p);
    }
    if Has(d, p.0, p.1) {
      assert Has(c, p.0, p.1) || Has(c, src, p.1) || Has(c, src, p.0);
      assert Has(c, src, p.0) ==> Has(c, p.0, src);
      assert p.1 != src;
      FoldKeyMeets(v, dst, src, p);
    }
  }

  lemma FoldedView(c: Table, d: Table, v: Cross, dst: int, src: int)
    requires Shared(c) && dst != src && Folded(c, d, dst, src, Entries(c, src).Keys)
    requires FoldedValues(c, v, dst, src, Entries(c, src).Keys, Held(c))
    requires forall p: (int, int) :: p in v <==> Has(c, p.0, p.1)
    requires Symmetric(v)
    ensures ViewOf(d) == Fold(v, dst, src)
  {
    ViewMeets(d);
    forall p: (int, int)
      ensures p in ViewOf(d) <==> p in Fold(v, dst, src)
      ensures p in ViewOf(d) ==> ViewOf(d)[p] == Fold(v, dst, src)[p]
    {
      FoldedKeys(c, d, v, dst, src, p);
      if Has(d, p.0, p.1) {
        FoldedEntry(c, d, v, dst, src, Held(c), p.0, p.1);
      }
    }
  }

  lemma FoldedEntry(c: Table, d: Table, v: Cross, dst: int, src: int, held: map<Acc, Ev>, a: int, b: int)
    requires Shared(c) && dst != src && Folded(c, d, dst, src, Entries(c, src).Keys)
    requires FoldedValues(c, v, dst, src, Entries(c, src).Keys, held)
    requires forall p: (int, int) :: p in v <==> Has(c, p.0, p.1)
    requires Symmetric(v) && Has(d, a, b)
    ensures d[a][b] in held && held[d[a][b]] == FoldAt(v, dst, src, a, b)
  {
    hide Shared;
    assert FoldedHas(c, dst, src, Entries(c, src).Keys, a, b);
    assert a != src && b != src;
    if a == dst {
      FoldedSurvivor(c, d, v, dst, src, held, b);
    } else if b == dst {
      SharedSwaps(c, d, dst, src, a);
      FoldedSurvivor(c, d, v, dst, src, held, a);
      assert At(v, a, dst) == At(v, dst, a) && At(v, a, src) == At(v, src, a) by {
        assert (a, dst) in v ==> (dst, a) in v;
        assert (dst, a) in v ==> (a, dst) in v;
        assert (a, src) in v ==> (src, a) in v;
        assert (src, a) in v ==> (a, src) in v;
      }
    }
  }

  lemma SharedSwaps(c: Table, d: Table, dst: int, src: int, a: int)
    requires Shared(c) && dst != src && Folded(c, d, dst, src, Entries(c, src).Keys) && Has(d, a, dst)
    ensures Has(d, dst, a) && d[dst][a] == d[a][dst]
  {
    assert FoldedHas(c, dst, src, Entries(c, src).Keys, a, dst);
    assert FoldedHas(c, dst, src, Entries(c, src).Keys, dst, a);
  }

  lemma FoldedSurvivor(c: Table, d: Table, v: Cross, dst: int, src: int, held: map<Acc, Ev>, b: int)
    requires dst != src && Folded(c, d, dst, src, Entries(c, src).Keys)
    requires FoldedValues(c, v, dst, src, Entries(c, src).Keys, held)
    requires forall p: (int, int) :: p in v <==> Has(c, p.0, p.1)
    requires Has(d, dst, b) && b != dst && b != src
    ensures d[dst][b] in held && held[d[dst][b]] == Plus(At(v, dst, b), At(v, src, b))
  {
    assert FoldedHas(c, dst, src, Entries(c, src).Keys, dst, b);
    assert (dst, b) in v <==> Has(c, dst, b);
    assert (src, b) in v <==> Has(c, src, b);
    if Has(c, dst, b) {
      assert b in Entries(c, src) <==> Has(c, src, b);
      assert held[c[dst][b]] == if Has(c, src, b) then Plus(At(v, dst, b), At(v, src, b)) else At(v, dst, b);
    } else {
      assert Has(c, src, b) && d[dst][b] == c[src][b];
      assert held[c[src][b]] == At(v, src, b);
    }
  }

  // ---------- recording one pair ----------

  /** The table once `acc` is the accumulator of `a` and `b`. */
  function Linked2(c: Table, a: int, b: int, acc: Acc): Table {
    var d := c[a := Entries(c, a)[b := acc]];
    d[b := Entries(d, b)[a := acc]]
  }

  lemma LinkedHas(c: Table, a: int, b: int, acc: Acc)
    requires Shared(c) && a != b && (Has(c, a, b) ==> acc == c[a][b])
    ensures var d := Linked2(c, a, b, acc);
            && (forall x, y :: Has(d, x, y) <==> Has(c, x, y) || (x == a && y == b) || (x == b && y == a))
            && (forall x, y :: Has(c, x, y) ==> d[x][y] == c[x][y])
            && d[a][b] == acc && d[b][a] == acc
    ensures Has(c, a, b) ==> Linked2(c, a, b, acc) == c
  {
    if Has(c, a, b) {
      assert Has(c, b, a);
      assert c[a][b := acc] == c[a] && c[b][a := acc] == c[b];
      assert c[a := c[a]] == c && c[b := c[b]] == c;
    }
  }

  lemma LinkedShared(c: Table, a: int, b: int, acc: Acc)
    requires Shared(c) && a != b && !Has(c, a, b) && acc !in AccsOf(c)
    ensures Shared(Linked2(c, a, b, acc)) && AccsOf(Linked2(c, a, b, acc)) <= AccsOf(c) + {acc}
  {
    var d := Linked2(c, a, b, acc);
    LinkedHas(c, a, b, acc);
    AccsMeet(c);
    PairsMeet(d);
    assert !Has(c, b, a);
    forall x, y, z, w | SameAcc(d, x, y, z, w)
      ensures (x == z && y == w) || (x == w && y == z)
    {
      assert Has(c, x, y) && Has(c, z, w) ==> SameAcc(c, x, y, z, w);
    }
    forall o | o in AccsOf(d)
      ensures o in AccsOf(c) + {acc}
    {
      var p :| p in PairsOf(d) && o == AccAt(d, p);
    }
  }

  /** After a pair's evidence went into `acc`, the accumulator of `a` and `b`. */
  ghost predicate PairAdded(c: Table, v: Cross, a: int, b: int, acc: Acc, evidence: real, held: map<Acc, Ev>) {
    && Shared(c) && Symmetric(v) && a != b
    && (forall p: (int, int) :: p in v <==> Has(c, p.0, p.1))
    && (Has(c, a, b) ==> acc == c[a][b])
    && acc in held && held[acc] == Plus(At(v, a, b), Ev(evidence, 1))
    && (forall x, y {:trigger Has(c, x, y)} :: Has(c, x, y) ==>
          c[x][y] in held && (c[x][y] != acc ==> held[c[x][y]] == At(v, x, y)))
    && (!Has(c, a, b) ==> forall x, y {:trigger Has(c, x, y)} :: Has(c, x, y) ==> c[x][y] != acc)
  }

  /** `before` is what the accumulators of `c` hold, and `v` says the same. */
  ghost predicate Grounded(c: Table, v: Cross, before: map<Acc, Ev>) {
    && Shared(c) && Symmetric(v)
    && (forall p: (int, int) :: p in v <==> Has(c, p.0, p.1))
    && before.Keys == AccsOf(c)
    && (forall x, y {:trigger Has(c, x, y)} :: Has(c, x, y) ==>
          c[x][y] in before && before[c[x][y]] == At(v, x, y))
  }

  lemma Ground(c: Table)
    requires Shared(c)
    ensures Grounded(c, ViewOf(c), Held(c))
  {
    ViewMeets(c);
    ViewSymmetric(c);
    AccsMeet(c);
    forall x, y | Has(c, x, y)
      ensures Held(c)[c[x][y]] == At(ViewOf(c), x, y)
    {
      assert (x, y) in ViewOf(c);
    }
  }

  lemma GroundRecords(c: Table, v: Cross, before: map<Acc, Ev>, a: int, b: int, acc: Acc, evidence: real)
    requires Grounded(c, v, before) && a != b
    requires if Has(c, a, b) then acc == c[a][b] else acc !in before
    ensures PairAdded(c, v, a, b, acc, evidence, before[acc := Plus(At(v, a, b), Ev(evidence, 1))])
    ensures Has(c, a, b) ==> acc in before && before[acc] == At(v, a, b)
    ensures !Has(c, a, b) ==> At(v, a, b) == ZERO
  {
    assert (a, b) in v <==> Has(c, a, b);
  }

  lemma RecordedEntry(c: Table, v: Cross, sid: int, pair: Scored, sitOf: map<int, int>, acc: Acc,
                      held: map<Acc, Ev>, p: (int, int))
    requires pair.alarm in sitOf && sitOf[pair.alarm] != sid
    requires PairAdded(c, v, sid, sitOf[pair.alarm], acc, pair.evidence, held)
    ensures var d := Linked2(c, sid, sitOf[pair.alarm], acc);
            && (Has(d, p.0, p.1) <==> p in AddPair(v, sid, pair, sitOf))
            && (Has(d, p.0, p.1) ==>
                  d[p.0][p.1] in held && held[d[p.0][p.1]] == AddPair(v, sid, pair, sitOf)[p])
  {
    var other := sitOf[pair.alarm];
    LinkedHas(c, sid, other, acc);
    if Has(c, p.0, p.1) && c[p.0][p.1] == acc {
      OnlyThat(c, sid, other, p.0, p.1);
    }
  }

  lemma RecordedView(c: Table, d: Table, v: Cross, sid: int, pair: Scored, sitOf: map<int, int>, acc: Acc,
                     held: map<Acc, Ev>)
    requires pair.alarm in sitOf && sitOf[pair.alarm] != sid
    requires PairAdded(c, v, sid, sitOf[pair.alarm], acc, pair.evidence, held)
    requires d == Linked2(c, sid, sitOf[pair.alarm], acc)
    requires forall o :: o in held ==> held[o] == Value(o)
    ensures ViewOf(d) == AddPair(v, sid, pair, sitOf)
  {
    ViewMeets(d);
    forall p: (int, int)
      ensures p in ViewOf(d) <==> p in AddPair(v, sid, pair, sitOf)
      ensures p in ViewOf(d) ==> ViewOf(d)[p] == AddPair(v, sid, pair, sitOf)[p]
    {
      RecordedEntry(c, v, sid, pair, sitOf, acc, held, p);
    }
  }

  class Grouper {
    const mode: Mode
    const params: Params
    var cross: Table

    ghost function Accs(): set<Acc>
      reads this
    {
      AccsOf(cross)
    }

    ghost predicate Valid()
      reads this
    {
      Shared(cross)
    }

    ghost function View(): Cross
      reads this, Accs()
    {
      ViewOf(cross)
    }

    constructor (mode: Mode, params: Params)
      ensures Valid() && View() == map[] && Accs() == {}
      ensures this.mode == mode && this.params == params
    {
      this.mode, this.params, cross := mode, params, map[];
    }

    // ---------- the decision ----------

    method Place(scored: seq<Scored>, sitOf: map<int, int>, own: Option<int>) returns (p: Placement)
      requires Valid()
      ensures p == Grouping.Place(mode, params, View(), scored, sitOf, own)
    {
      if mode.Components? {
        p := PlaceComponents(scored, sitOf, own);
        return;
      }
      var support: seq<Tally> := [];
      for i := 0 to |scored|
        invariant support == Support(scored[..i], sitOf)
      {
        support := NotePair(support, scored[i], sitOf);
        assert scored[..i + 1][..i] == scored[..i];
      }
      assert scored[..|scored|] == scored;
      var ranked := Rank(support);
      var join := None;
      if own.Some? {
        join := own;
      } else if ranked != [] && ranked[0].mean > params.joinBias {
        join := Some(ranked[0].sid);
      }
      var merges: seq<int> := [];
      if join.Some? {
        merges := Merging(join.value, support, ranked);
      }
      p := Placement(join, Sort(merges, AtMost), ranked);
    }

    method Merging(join: int, support: seq<Tally>, ranked: seq<Row>) returns (merges: seq<int>)
      requires Valid()
      ensures merges == MergeList(params, View(), join, support, ranked)
    {
      merges := [];
      var prior := Entries(cross, join);
      PairsMeet(cross);
      for i := 0 to |ranked|
        invariant merges == MergeList(params, View(), join, support, ranked[..i])
      {
        var sid := ranked[i].sid;
        assert ranked[..i + 1][..i] == ranked[..i];
        if sid != join {
          var held := ZERO;
          if sid in prior {
            held := Ev(prior[sid].sum, prior[sid].pairs);
          }
          assert (join, sid) in View() <==> Has(cross, join, sid);
          assert held == At(View(), join, sid);
          if Merges(params, Plus(held, Lookup(support, sid))) {
            merges := merges + [sid];
          }
        }
      }
      assert ranked[..|ranked|] == ranked;
    }

    // ---------- the bookkeeping ----------

    method Forget(sid: int)
      requires Valid()
      modifies this`cross
      ensures Valid() && View() == Grouping.Forget(old(View()), {sid})
      ensures Accs() <= old(Accs())
    {
      hide Shared, Dropped, ViewOf;
      ghost var c := cross;
      assert forall acc :: acc in AccsOf(c) ==> allocated(acc);
      Drop(sid);
      assert ViewOf(c) == old(ViewOf(c));
      DroppedMeets(c, sid);
    }

    method Drop(sid: int)
      requires Valid()
      modifies this`cross
      ensures cross == Dropped(old(cross), sid)
    {
      hide Shared, Dropped, PartDropped;
      ghost var c := cross;
      PartDroppedNone(c, sid);
      PartDroppedAll(c, sid);
      var gone := Entries(cross, sid).Keys;
      cross := cross - {sid};
      ghost var done: set<int> := {};
      while gone != {}
        invariant gone + done == Entries(c, sid).Keys && gone !! done
        invariant cross == PartDropped(c, sid, done)
        decreases gone
      {
        ghost var _ := Member(gone);
        var other :| other in gone;
        PartDroppedMore(c, sid, done, other);
        if other in cross {
          cross := cross[other := cross[other] - {sid}];
        }
        gone, done := gone - {other}, done + {other};
      }
      assert done == Entries(c, sid).Keys;
    }

    /** One entry of the folded situation: handed to the survivor, or added to what it holds. A situation
        folded into itself is handed its own entries back. */
    method FoldOne(dst: int, src: int, other: int, acc: Acc)
      requires dst in cross && other != src && (dst != src ==> src !in cross)
      requires dst != src && other != dst ==> (Has(cross, dst, other) <==> Has(cross, other, dst))
      requires dst == src ==> !Has(cross, dst, other)
      requires other != dst && Has(cross, dst, other) ==>
                 Has(cross, other, dst) && cross[dst][other] == cross[other][dst] && cross[dst][other] != acc
      modifies this`cross, if other != dst && Has(cross, dst, other) then {cross[dst][other]} else {}
      ensures dst != src ==> Handled(old(cross), cross, dst, src, other, acc)
      ensures dst == src ==> HandedBack(old(cross), cross, src, other, acc)
      ensures other != dst && Has(old(cross), dst, other) ==>
                Value(old(cross)[dst][other]) == Plus(old(Value(cross[dst][other])), old(Value(acc)))
    {
      hide Handled, HandedBack;
      if dst != src {
        HandOverHandles(cross, dst, src, other, acc);
      } else {
        HandOverReturns(cross, src, other, acc);
      }
      if other in cross {
        cross := cross[other := cross[other] - {src}];
      }
      if other != dst {
        if other in cross[dst] {
          var held := cross[dst][other];
          held.sum, held.pairs := held.sum + acc.sum, held.pairs + acc.pairs;
        } else {
          cross := cross[dst := cross[dst][other := acc]];
          cross := cross[other := Entries(cross, other)[dst := acc]];
        }
      }
    }

    method FoldStep(dst: int, src: int, other: int, acc: Acc, ghost c: Table, ghost v: Cross, ghost done: set<int>)
      requires Shared(c) && Has(c, src, other) && other !in done && acc == c[src][other]
      requires dst != src ==> Folded(c, cross, dst, src, done) && FoldedValues(c, v, dst, src, done, Held(c))
      requires dst == src ==> Returned(c, cross, src, done)
      modifies this`cross, if dst != src then AccsOf(c) else {}
      ensures dst != src ==>
                Folded(c, cross, dst, src, done + {other}) && FoldedValues(c, v, dst, src, done + {other}, Held(c))
      ensures dst == src ==> Returned(c, cross, src, done + {other})
    {
      hide Shared, Folded, FoldedValues, Returned, Handled, HandedBack, Held, AccsOf;
      ghost var d, held := cross, Held(c);
      HeldMeets(c);
      AccsMeet(c);
      if dst != src {
        FoldedSees(c, d, dst, src, done, other);
      } else {
        ReturnedSees(c, d, src, done, other);
      }
      FoldOne(dst, src, other, acc);
      HeldMeets(c);
      if dst != src {
        assert Added(c, dst, src, other, held, Held(c));
        StepFolds(c, v, d, cross, dst, src, done, other, held, Held(c));
      } else {
        ReturnedStep(c, d, cross, src, done, other);
      }
    }

    method FoldEntries(dst: int, src: int, moved: map<int, Acc>, ghost c: Table, ghost v: Cross)
      requires Shared(c) && moved == Entries(c, src)
      requires dst != src ==> Folded(c, cross, dst, src, {}) && FoldedValues(c, v, dst, src, {}, Held(c))
      requires dst == src ==> Returned(c, cross, src, {})
      modifies this`cross, if dst != src then AccsOf(c) else {}
      ensures dst != src ==>
                Folded(c, cross, dst, src, moved.Keys) && FoldedValues(c, v, dst, src, moved.Keys, Held(c))
      ensures dst == src ==> Returned(c, cross, src, moved.Keys)
    {
      hide Folded, FoldedValues, Shared, Returned;
      var left := moved.Keys;
      ghost var done: set<int> := {};
      while left != {}
        invariant left + done == moved.Keys && left !! done
        invariant dst != src ==> Folded(c, cross, dst, src, done) && FoldedValues(c, v, dst, src, done, Held(c))
        invariant dst == src ==> Returned(c, cross, src, done)
        decreases left
      {
        ghost var _ := Member(left);
        var other :| other in left;
        FoldStep(dst, src, other, moved[other], c, v, done);
        left, done := left - {other}, done + {other};
      }
      assert done == moved.Keys;
    }

    /** `_fold`: the evidence of `src` follows its members into `dst`. Into itself, everything comes back. */
    method Fold(dst: int, src: int)
      requires Valid()
      modifies this`cross, Accs()
      ensures Valid() && View() == Grouping.Fold(old(View()), dst, src)
      ensures Accs() <= old(Accs())
    {
      hide Shared, Folded, FoldedValues, Started, Returned, Grouping.Fold, PairsOf, Held, AccsOf, ViewOf;
      ghost var c, v, held := cross, ViewOf(cross), Held(cross);
      TableAllocated(c);
      if dst != src {
        FoldedStart(c, v, dst, src, held);
      } else {
        ReturnedStart(c, src);
      }
      var moved := Entries(cross, src);
      cross := cross - {src};
      if dst !in cross {
        cross := cross[dst := map[]];
      }
      assert cross == Started(c, dst, src) by {
        StartedIs(c, cross, dst, src);
      }
      assert Held(c) == held;
      assert ViewOf(c) == v;
      FoldEntries(dst, src, moved, c, v);
      assert dst == src ==> ViewOf(c) == v;
      held := Held(c);
      if dst != src {
        FoldedDone(c, cross, dst, src);
      } else {
        ReturnedDone(c, cross, src);
      }
      ghost var d := cross;
      cross := cross[dst := cross[dst] - {src}];
      assert cross == d;
      if dst != src {
        FoldedShared(c, cross, dst, src);
        FoldedAccs(c, cross, dst, src, moved.Keys);
        assert Held(c) == held;
        FoldedView(c, cross, v, dst, src);
      } else {
        ReturnedView(c, cross, v, src);
      }
    }

    /** The accumulator of two situations, made and shared if there was none. */
    method AccOf(sid: int, other: int) returns (acc: Acc)
      requires Valid() && sid != other
      modifies this`cross
      ensures Valid() && cross == Linked2(old(cross), sid, other, acc)
      ensures if Has(old(cross), sid, other) then acc == old(cross)[sid][other]
              else fresh(acc) && Value(acc) == ZERO
      ensures AccsOf(cross) <= AccsOf(old(cross)) + {acc}
    {
      ghost var c := cross;
      if sid in cross && other in cross[sid] {
        acc := cross[sid][other];
        LinkedHas(c, sid, other, acc);
      } else {
        acc := new Acc(0.0, 0);
        LinkedShared(c, sid, other, acc);
      }
      cross := cross[sid := Entries(cross, sid)[other := acc]];
      cross := cross[other := Entries(cross, other)[sid := acc]];
    }

    static method AddTo(acc: Acc, evidence: real, ghost before: map<Acc, Ev>)
      requires forall o :: o in before ==> before[o] == Value(o)
      modifies acc
      ensures Value(acc) == Plus(old(Value(acc)), Ev(evidence, 1))
      ensures forall o :: o in before && o != acc ==> before[o] == Value(o)
    {
      acc.sum, acc.pairs := acc.sum + evidence, acc.pairs + 1;
    }

    /** One scored pair, recorded in the accumulator both situations share ... */
    method Record(sid: int, pair: Scored, sitOf: map<int, int>)
      requires Valid() && pair.alarm in sitOf && sitOf[pair.alarm] != sid
      modifies this`cross, Accs()
      ensures Valid() && View() == AddPair(old(View()), sid, pair, sitOf)
      ensures fresh(Accs() - old(Accs()))
    {
      hide Shared, PairsOf, AddPair, Linked2, Grounded, PairAdded, ViewOf, AccsOf, Held;
      var other := sitOf[pair.alarm];
      ghost var c, v, before := cross, View(), Held(cross);
      Ground(c);
      HeldMeets(c);
      AccsMeet(c);
      var acc := AccOf(sid, other);
      GroundRecords(c, v, before, sid, other, acc, pair.evidence);
      AddTo(acc, pair.evidence, before);
      ghost var held := before[acc := Plus(At(v, sid, other), Ev(pair.evidence, 1))];
      RecordedView(c, cross, v, sid, pair, sitOf, acc, held);
    }

    /** ... where it is between two situations. */
    method AddOne(sid: int, pair: Scored, sitOf: map<int, int>)
      requires Valid()
      modifies this`cross, Accs()
      ensures Valid() && View() == AddPair(old(View()), sid, pair, sitOf)
      ensures fresh(Accs() - old(Accs()))
    {
      hide Shared, ViewOf, AccsOf;
      if pair.alarm in sitOf && sitOf[pair.alarm] != sid {
        Record(sid, pair, sitOf);
      }
    }

    /** `commit`: fold what was merged, then record this activation's evidence across. */
    method Commit(sid: int, merge: seq<int>, scored: seq<Scored>, sitOf: map<int, int>)
      requires Valid()
      modifies this`cross, Accs()
      ensures Valid() && View() == Grouping.Commit(mode, old(View()), sid, merge, scored, sitOf)
      ensures fresh(Accs() - old(Accs()))
    {
      if mode.Components? {
        return;
      }
      ghost var v := View();
      for i := 0 to |merge|
        invariant Valid() && View() == FoldAll(v, sid, merge[..i])
        invariant Accs() <= old(Accs())
      {
        assert merge[..i + 1][..i] == merge[..i];
        Fold(sid, merge[i]);
      }
      assert merge[..|merge|] == merge;
      ghost var folded := View();
      for i := 0 to |scored|
        invariant Valid() && View() == AddPairs(folded, sid, scored[..i], sitOf)
        invariant fresh(Accs() - old(Accs()))
      {
        assert scored[..i + 1][..i] == scored[..i];
        AddOne(sid, scored[i], sitOf);
      }
      assert scored[..|scored|] == scored;
    }
  }

  lemma TableAllocated(c: Table)
    ensures forall acc :: acc in AccsOf(c) ==> allocated(acc)
  {
  }

  lemma AccsAllocated(g: Grouper)
    ensures forall acc :: acc in g.Accs() ==> allocated(acc)
  {
  }
}
