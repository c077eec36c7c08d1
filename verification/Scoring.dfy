/**
 `situation_metrics` of `eval/synth/evaluate.py`: the pooled partition, its incidents and situations,
 and the operator's repair work - one merge per extra piece of an incident, one move per foreign
 incident in a situation.
 */
module Scoring {
  import opened Wrappers
  import opened Sums
  import opened Pairs
  import opened Metrics
  import opened Outcomes
  import opened StreamRates

  type Incident = (string, string)
  type Situation = (string, int)

  /** One scored activation: stream, incident, family, situation. */
  datatype Item = Item(name: string, incident: string, family: string, sit: int)

  function IncidentOf(x: Item): Incident { (x.name, x.incident) }

  function SituationOf(x: Item): Situation { (x.name, x.sit) }

  function ItemAt(o: Outcome, i: nat): Item
    requires WellFormed(o) && i < |o.truth|
  {
    Item(o.name, o.truth[i], o.family[i], o.pred[i])
  }

  /** The scored activations of one stream among its first `n`: an unrecognised clear is never one. */
  function ItemsTo(o: Outcome, n: nat): seq<Item>
    requires WellFormed(o) && n <= |o.truth|
  {
    if n == 0 then []
    else if Skipped(o, n - 1) then ItemsTo(o, n - 1)
    else ItemsTo(o, n - 1) + [Item(o.name, o.truth[n - 1], o.family[n - 1], o.pred[n - 1])]
  }

  function Pool(outcomes: seq<Outcome>): seq<Item>
    requires forall o :: o in outcomes ==> WellFormed(o)
  {
    if outcomes == [] then []
    else
      var o := outcomes[|outcomes| - 1];
      Pool(outcomes[..|outcomes| - 1]) + ItemsTo(o, |o.truth|)
  }

  function Of(items: seq<Item>, family: Option<string>): seq<Item> {
    if items == [] then []
    else
      var x := items[|items| - 1];
      var before := Of(items[..|items| - 1], family);
      if family == None || Some(x.family) == family then before + [x] else before
  }

  function Incidents(items: seq<Item>): seq<Incident> {
    seq(|items|, i requires 0 <= i < |items| => IncidentOf(items[i]))
  }

  function Situations(items: seq<Item>): seq<Situation> {
    seq(|items|, i requires 0 <= i < |items| => SituationOf(items[i]))
  }

  // ---------- grouping one labelling by another ----------

  /** For each label, the set of its items' other labels. */
  ghost function Groups<K, V>(keys: seq<K>, vals: seq<V>): map<K, set<V>>
    requires |keys| == |vals|
  {
    map k | k in keys :: set i | 0 <= i < |keys| && keys[i] == k :: vals[i]
  }

  lemma GroupsGrow<K, V>(keys: seq<K>, vals: seq<V>, k: K, v: V)
    requires |keys| == |vals|
    ensures Groups(keys + [k], vals + [v]) ==
            Groups(keys, vals)[k := (if k in Groups(keys, vals) then Groups(keys, vals)[k] else {}) + {v}]
  {
    var g, h := Groups(keys, vals), Groups(keys + [k], vals + [v]);
    var ks, vs := keys + [k], vals + [v];
    forall x
      ensures x in h <==> x in g || x == k
    {
    }
    forall x | x in h
      ensures h[x] == (if x in g then g[x] else {}) + (if x == k then {v} else {})
    {
      forall y | y in h[x]
        ensures y in (if x in g then g[x] else {}) + (if x == k then {v} else {})
      {
        var i :| 0 <= i < |ks| && ks[i] == x && y == vs[i];
        if i < |keys| {
          assert keys[i] == x && vals[i] == y;
        }
      }
      forall y | y in (if x in g then g[x] else {}) + (if x == k then {v} else {})
        ensures y in h[x]
      {
        if x in g && y in g[x] {
          var i :| 0 <= i < |keys| && keys[i] == x && y == vals[i];
          assert ks[i] == x && vs[i] == y;
        } else {
          assert ks[|keys|] == x && vs[|keys|] == y;
        }
      }
    }
    var target := g[k := (if k in g then g[k] else {}) + {v}];
    forall x | x in h
      ensures x in target && h[x] == target[x]
    {
    }
  }

  /** The pieces beyond the first of every group. */
  ghost function Extra<K, V>(g: map<K, set<V>>): map<K, int> {
    map k | k in g :: |g[k]| - 1
  }

  ghost function Cells<K, V>(keys: seq<K>, vals: seq<V>): set<(K, V)>
    requires |keys| == |vals|
  {
    set i | 0 <= i < |keys| :: (keys[i], vals[i])
  }

  lemma CellsGrow<K, V>(keys: seq<K>, vals: seq<V>, k: K, v: V)
    requires |keys| == |vals|
    ensures Cells(keys + [k], vals + [v]) == Cells(keys, vals) + {(k, v)}
    ensures (k, v) in Cells(keys, vals) <==> k in Groups(keys, vals) && v in Groups(keys, vals)[k]
  {
    var ks, vs := keys + [k], vals + [v];
    forall c
      ensures c in Cells(ks, vs) <==> c in Cells(keys, vals) || c == (k, v)
    {
      if c in Cells(ks, vs) {
        var i :| 0 <= i < |ks| && c == (ks[i], vs[i]);
        assert i < |keys| ==> c == (keys[i], vals[i]);
      }
      if c in Cells(keys, vals) {
        var i :| 0 <= i < |keys| && c == (keys[i], vals[i]);
        assert c == (ks[i], vs[i]);
      }
      if c == (k, v) {
        assert c == (ks[|keys|], vs[|keys|]);
      }
    }
  }

  /** Extra pieces plus groups are the non-empty cells. */
  lemma {:induction false} ExtraCounts<K, V>(keys: seq<K>, vals: seq<V>)
    requires |keys| == |vals|
    ensures Sum(Extra(Groups(keys, vals))) + |Groups(keys, vals)| == |Cells(keys, vals)|
  {
    if keys == [] {
      SumEmpty(Extra(Groups(keys, vals)));
      assert Groups(keys, vals) == map[] && Cells(keys, vals) == {};
    } else {
      var n := |keys| - 1;
      ExtraCounts(keys[..n], vals[..n]);
      assert keys == keys[..n] + [keys[n]] && vals == vals[..n] + [vals[n]];
      ExtraGrows(keys[..n], vals[..n], keys[n], vals[n]);
    }
  }

  lemma ExtraSum<K, V>(g: map<K, set<V>>, k: K, now: set<V>)
    ensures Sum(Extra(g[k := now])) == Sum(Extra(g)) + |now| - (if k in g then |g[k]| else 1)
  {
    assert Extra(g[k := now]) == Extra(g)[k := |now| - 1];
    SumPut(Extra(g), k, |now| - 1);
  }

  lemma KeysPut<K, V>(g: map<K, V>, k: K, v: V)
    ensures |g[k := v]| == |g| + if k in g then 0 else 1
  {
    assert g[k := v].Keys == g.Keys + {k};
  }

  lemma SizePut<V>(was: set<V>, v: V)
    ensures |was + {v}| == |was| + if v in was then 0 else 1
  {
    if v in was {
      assert was + {v} == was;
    }
  }

  lemma ExtraPut<K, V>(g: map<K, set<V>>, k: K, v: V, was: set<V>)
    requires was == if k in g then g[k] else {}
    ensures Sum(Extra(g[k := was + {v}])) + |g[k := was + {v}]| ==
            Sum(Extra(g)) + |g| + if v in was then 0 else 1
  {
    ExtraSum(g, k, was + {v});
    KeysPut(g, k, was + {v});
    SizePut(was, v);
  }

  lemma ExtraGrows<K, V>(keys: seq<K>, vals: seq<V>, k: K, v: V)
    requires |keys| == |vals|
    requires Sum(Extra(Groups(keys, vals))) + |Groups(keys, vals)| == |Cells(keys, vals)|
    ensures Sum(Extra(Groups(keys + [k], vals + [v]))) + |Groups(keys + [k], vals + [v])|
            == |Cells(keys + [k], vals + [v])|
  {
    hide Groups, Cells, Extra;
    var was := if k in Groups(keys, vals) then Groups(keys, vals)[k] else {};
    GroupsGrow(keys, vals, k, v);
    CellsGrow(keys, vals, k, v);
    ExtraPut(Groups(keys, vals), k, v, was);
    SizePut(Cells(keys, vals), (k, v));
  }

  /** Nothing is in pieces exactly when equal labels imply equal other labels. */
  lemma ExtraZero<K, V>(keys: seq<K>, vals: seq<V>)
    requires |keys| == |vals|
    ensures Sum(Extra(Groups(keys, vals))) >= 0
    ensures Sum(Extra(Groups(keys, vals))) == 0 <==>
            forall i, j :: 0 <= i < |keys| && 0 <= j < |keys| && keys[i] == keys[j] ==> vals[i] == vals[j]
  {
    var g := Groups(keys, vals);
    forall k | k in g
      ensures |g[k]| >= 1
    {
      var i :| 0 <= i < |keys| && keys[i] == k;
      assert vals[i] in g[k];
    }
    SumNonNegative(Extra(g));
    if Sum(Extra(g)) == 0 {
      forall i, j | 0 <= i < |keys| && 0 <= j < |keys| && keys[i] == keys[j]
        ensures vals[i] == vals[j]
      {
        var k := keys[i];
        assert Extra(g)[k] == 0;
        assert vals[i] in g[k] && vals[j] in g[k];
        OneElement(g[k], vals[i], vals[j]);
      }
    }
    if forall i, j :: 0 <= i < |keys| && 0 <= j < |keys| && keys[i] == keys[j] ==> vals[i] == vals[j] {
      forall k | k in g
        ensures Extra(g)[k] == 0
      {
        var i :| 0 <= i < |keys| && keys[i] == k;
        assert g[k] == {vals[i]};
      }
      SumZero(Extra(g));
    }
  }

  lemma OneElement<V>(s: set<V>, x: V, y: V)
    requires |s| == 1 && x in s && y in s
    ensures x == y
  {
    if x != y {
      Included({x, y}, s);
    }
  }

  lemma {:induction false} SumZero<K>(m: map<K, int>)
    requires forall k :: k in m ==> m[k] == 0
    ensures Sum(m) == 0
    decreases |m|
  {
    if m != map[] {
      var k :| k in m && Sum(m) == m[k] + Sum(m - {k});
      Shrinks(m, k);
      SumZero(m - {k});
    }
  }

  // ---------- the repair work of a pooled partition ----------

  ghost function PiecesOf(items: seq<Item>): map<Incident, set<int>> {
    Groups(Incidents(items), SitsOf(items))
  }

  ghost function IncidentsIn(items: seq<Item>): map<Situation, set<string>> {
    Groups(Situations(items), NamesOf(items))
  }

  /** One merge for every extra piece of an incident. */
  ghost function MergesNeeded(items: seq<Item>): int {
    Sum(Extra(PiecesOf(items)))
  }

  /** One move for every foreign incident in a situation holding one of these incidents. */
  ghost function MovesNeeded(all: seq<Item>, items: seq<Item>): int {
    var inside := IncidentsIn(all);
    Sum(map key | key in inside && key in Situations(items) :: |inside[key]| - 1)
  }

  /** The (incident, situation) pairs that share an activation. */
  ghost function Overlaps(items: seq<Item>): set<(Incident, Situation)> {
    Cells(Incidents(items), Situations(items))
  }

  lemma MovesOfAll(items: seq<Item>)
    ensures MovesNeeded(items, items) == Sum(Extra(IncidentsIn(items)))
  {
    var inside := IncidentsIn(items);
    assert (map key | key in inside && key in Situations(items) :: |inside[key]| - 1) == Extra(inside);
  }

  lemma SameCells<X, Y>(a: set<X>, f: X -> Y, b: set<Y>)
    requires forall x, y :: x in a && y in a && f(x) == f(y) ==> x == y
    requires b == set x | x in a :: f(x)
    ensures |b| == |a|
  {
    if a == {} {
      assert b == {};
    } else {
      var x :| x in a;
      var fewer := set y | y in a - {x} :: f(y);
      SameCells(a - {x}, f, fewer);
      assert a == a - {x} + {x};
      assert b == fewer + {f(x)} && f(x) !in fewer;
    }
  }

  lemma CellsImage<K, V, K2, V2>(keys: seq<K>, vals: seq<V>, keys2: seq<K2>, vals2: seq<V2>,
                                 f: ((K, V)) -> (K2, V2))
    requires |keys| == |vals| == |keys2| == |vals2|
    requires forall i :: 0 <= i < |keys| ==> (keys2[i], vals2[i]) == f((keys[i], vals[i]))
    requires forall x, y :: x in Cells(keys, vals) && y in Cells(keys, vals) && f(x) == f(y) ==> x == y
    ensures |Cells(keys2, vals2)| == |Cells(keys, vals)|
  {
    var a, b := Cells(keys, vals), Cells(keys2, vals2);
    forall y
      ensures y in b <==> y in set x | x in a :: f(x)
    {
      if y in b {
        var i :| 0 <= i < |keys| && y == (keys2[i], vals2[i]);
        assert (keys[i], vals[i]) in a;
      }
      if x :| x in a && y == f(x) {
        var i :| 0 <= i < |keys| && x == (keys[i], vals[i]);
        assert y == (keys2[i], vals2[i]);
      }
    }
    SameCells(a, f, b);
  }

  function SitsOf(items: seq<Item>): seq<int> {
    seq(|items|, i requires 0 <= i < |items| => items[i].sit)
  }

  function NamesOf(items: seq<Item>): seq<string> {
    seq(|items|, i requires 0 <= i < |items| => items[i].incident)
  }

  lemma OneStream(items: seq<Item>)
    ensures forall x :: x in Overlaps(items) ==> x.0.0 == x.1.0
  {
  }

  /** Merges and incidents, moves and situations, both add up to the cells of the overlap table. */
  lemma WorkBalances(items: seq<Item>)
    ensures MergesNeeded(items) + |PiecesOf(items)| == |Overlaps(items)|
    ensures MovesNeeded(items, items) + |IncidentsIn(items)| == |Overlaps(items)|
  {
    hide Cells, Groups;
    MovesOfAll(items);
    OneStream(items);
    ExtraCounts(Incidents(items), SitsOf(items));
    ExtraCounts(Situations(items), NamesOf(items));
    CellsImage(Incidents(items), Situations(items), Incidents(items), SitsOf(items),
               (x: (Incident, Situation)) => (x.0, x.1.1));
    CellsImage(Incidents(items), Situations(items), Situations(items), NamesOf(items),
               (x: (Incident, Situation)) => (x.1, x.0.1));
  }

  lemma SamePairs<P, T>(p: seq<P>, t: seq<T>)
    requires |p| == |t|
    ensures Together(p) == Together(t) <==>
            forall i, j :: 0 <= i < |p| && 0 <= j < |p| ==> (p[i] == p[j] <==> t[i] == t[j])
  {
    TogetherMeets(p);
    TogetherMeets(t);
    if Together(p) == Together(t) {
      forall i, j | 0 <= i < |p| && 0 <= j < |p|
        ensures p[i] == p[j] <==> t[i] == t[j]
      {
        if i < j {
          assert (i, j) in Together(p) <==> (i, j) in Together(t);
        } else if j < i {
          assert (j, i) in Together(p) <==> (j, i) in Together(t);
        }
      }
    }
  }

  /** No repair work is left exactly when prediction and truth put the same activations together. */
  lemma NoWorkNoDifference(items: seq<Item>)
    ensures MergesNeeded(items) >= 0 && MovesNeeded(items, items) >= 0
    ensures MergesNeeded(items) + MovesNeeded(items, items) == 0 <==>
            Together(Situations(items)) == Together(Incidents(items))
  {
    hide Groups, Together;
    MovesOfAll(items);
    ExtraZero(Incidents(items), SitsOf(items));
    ExtraZero(Situations(items), NamesOf(items));
    SamePairs(Situations(items), Incidents(items));
    assert MergesNeeded(items) == Sum(Extra(Groups(Incidents(items), SitsOf(items))));
    assert MovesNeeded(items, items) == Sum(Extra(Groups(Situations(items), NamesOf(items))));
  }

  /** ... exactly when the pairwise F1 is 1, exactly when the adjusted Rand index is 1. */
  lemma NothingToRepair(items: seq<Item>)
    ensures MergesNeeded(items) + MovesNeeded(items, items) == 0 <==>
            Dice(Together(Situations(items)), Together(Incidents(items))) == 1.0
    ensures |items| >= 2 ==>
            (MergesNeeded(items) + MovesNeeded(items, items) == 0 <==>
             Rand(Together(Situations(items)), Together(Incidents(items)), |items|) == 1.0)
  {
    hide Together, MergesNeeded, MovesNeeded, Rand, Dice;
    var p, t := Situations(items), Incidents(items);
    NoWorkNoDifference(items);
    DiceBounds(Together(p), Together(t));
    if |items| >= 2 {
      TogetherBounded(p);
      TogetherBounded(t);
      RandBounds(Together(p), Together(t), |items|);
    }
  }

  // ---------- the report ----------

  datatype Report = Report(activations: int, incidents: int, situations: int,
                           pairwiseF1: real, ari: real, underMerge: real, overMerge: real,
                           merges: int, moves: int, repair: real,
                           clears: int, negatives: int, respectedRate: real,
                           concurrentPairs: int, splitBagIntactRate: real)

  ghost function Split<K, V>(g: map<K, set<V>>): set<K> {
    set k | k in g && |g[k]| >= 2
  }

  /** The incidents one of whose situations holds another incident's alarm. */
  ghost function Contaminated(all: seq<Item>, items: seq<Item>): set<Incident> {
    set t | t in PiecesOf(items) && HasForeign(all, t.0, PiecesOf(items)[t])
  }

  ghost predicate HasForeign(all: seq<Item>, name: string, sits: set<int>) {
    exists s :: s in sits && (name, s) in IncidentsIn(all) && |IncidentsIn(all)[(name, s)]| >= 2
  }

  function Fraction(part: int, whole: int): real {
    if whole != 0 then part as real / whole as real else 0.0
  }

  lemma OfGrows(all: seq<Item>, x: Item, family: Option<string>)
    ensures Of(all + [x], family) ==
            Of(all, family) + if family == None || Some(x.family) == family then [x] else []
  {
    assert (all + [x])[..|all + [x]| - 1] == all;
  }

  lemma LabelsGrow(items: seq<Item>, x: Item)
    ensures Incidents(items + [x]) == Incidents(items) + [IncidentOf(x)]
    ensures Situations(items + [x]) == Situations(items) + [SituationOf(x)]
    ensures PiecesOf(items + [x]) == Added(PiecesOf(items), IncidentOf(x), x.sit)
    ensures IncidentsIn(items + [x]) == Added(IncidentsIn(items), SituationOf(x), x.incident)
  {
    assert SitsOf(items + [x]) == SitsOf(items) + [x.sit];
    assert NamesOf(items + [x]) == NamesOf(items) + [x.incident];
    assert Incidents(items + [x]) == Incidents(items) + [IncidentOf(x)];
    assert Situations(items + [x]) == Situations(items) + [SituationOf(x)];
    GroupsGrow(Incidents(items), SitsOf(items), IncidentOf(x), x.sit);
    GroupsGrow(Situations(items), NamesOf(items), SituationOf(x), x.incident);
  }

  /** `defaultdict(set)[k].add(v)`. */
  function Added<K, V>(g: map<K, set<V>>, k: K, v: V): map<K, set<V>> {
    g[k := (if k in g then g[k] else {}) + {v}]
  }

  /** `sum(len(g[key]) - 1 for key in keys)`. */
  method ExtraOver<K(==), V(==)>(g: map<K, set<V>>, keys: set<K>) returns (total: int)
    requires keys <= g.Keys
    ensures total == Sum(map k | k in g && k in keys :: |g[k]| - 1)
  {
    total := 0;
    var left := keys;
    ghost var seen: map<K, int> := map[];
    while left != {}
      invariant left !! seen.Keys && left + seen.Keys == keys
      invariant forall k :: k in seen ==> seen[k] == |g[k]| - 1
      invariant total == Sum(seen)
      decreases left
    {
      var k :| k in left;
      SumPut(seen, k, |g[k]| - 1);
      total := total + |g[k]| - 1;
      left, seen := left - {k}, seen[k := |g[k]| - 1];
    }
    assert seen == map k | k in g && k in keys :: |g[k]| - 1;
  }

  /** How many keys hold two or more values. */
  method CountSplit<K(==), V(==)>(g: map<K, set<V>>) returns (n: int)
    ensures n == |Split(g)|
  {
    n := 0;
    var left := g.Keys;
    ghost var found: set<K> := {};
    while left != {}
      invariant left <= g.Keys && n == |found| && found !! left
      invariant forall k :: k in found <==> k in g && k !in left && |g[k]| >= 2
      decreases left
    {
      var k :| k in left;
      if |g[k]| >= 2 {
        n := n + 1;
        found := found + {k};
      }
      left := left - {k};
    }
    assert found == Split(g);
  }

  method CountContaminated(ghost all: seq<Item>, ghost items: seq<Item>,
                           pieces: map<Incident, set<int>>, inside: map<Situation, set<string>>)
    returns (n: int)
    requires pieces == PiecesOf(items) && inside == IncidentsIn(all)
    ensures n == |Contaminated(all, items)|
  {
    n := 0;
    var left := pieces.Keys;
    ghost var found: set<Incident> := {};
    while left != {}
      invariant left <= pieces.Keys && n == |found| && found !! left
      invariant forall t :: t in found <==> t in pieces && t !in left && HasForeign(all, t.0, pieces[t])
      decreases left
    {
      var t :| t in left;
      var sits := pieces[t];
      if exists s :: s in sits && (t.0, s) in inside && |inside[(t.0, s)]| >= 2 {
        n := n + 1;
        found := found + {t};
      }
      left := left - {t};
    }
    assert found == Contaminated(all, items);
  }

  /** The pooled labels of the streams, as the loop over outcomes and activations gathers them. */
  method Gather(outcomes: seq<Outcome>, family: Option<string>)
    returns (pred: seq<Situation>, truth: seq<Incident>, pieces: map<Incident, set<int>>,
             inside: map<Situation, set<string>>)
    requires forall o :: o in outcomes ==> WellFormed(o)
    ensures var all := Pool(outcomes);
            var items := Of(all, family);
            && pred == Situations(items) && truth == Incidents(items)
            && pieces == PiecesOf(items) && inside == IncidentsIn(all)
  {
    hide PiecesOf, IncidentsIn, Situations, Incidents, Pool, Of, ItemsTo;
    pred, truth, pieces, inside := [], [], map[], map[];
    GroupsNone();
    PoolNone(outcomes, family);
    for k := 0 to |outcomes|
      invariant var all := Pool(outcomes[..k]);
                var items := Of(all, family);
                && pred == Situations(items) && truth == Incidents(items)
                && pieces == PiecesOf(items) && inside == IncidentsIn(all)
    {
      var o := outcomes[k];
      assert o in outcomes && WellFormed(o);
      ghost var before := Pool(outcomes[..k]);
      ItemsNone(before, o);
      for i := 0 to |o.truth|
        invariant var all := before + ItemsTo(o, i);
                  var items := Of(all, family);
                  && pred == Situations(items) && truth == Incidents(items)
                  && pieces == PiecesOf(items) && inside == IncidentsIn(all)
      {
        ItemStep(before, o, i, family);
        if !Skipped(o, i) {
          var x := Item(o.name, o.truth[i], o.family[i], o.pred[i]);
          inside := Added(inside, SituationOf(x), x.incident);
          if family == None || Some(x.family) == family {
            pred := pred + [SituationOf(x)];
            truth := truth + [IncidentOf(x)];
            pieces := Added(pieces, IncidentOf(x), x.sit);
          }
        }
      }
      PoolStep(outcomes, k);
    }
    assert outcomes[..|outcomes|] == outcomes;
  }

  lemma PoolNone(outcomes: seq<Outcome>, family: Option<string>)
    ensures Pool(outcomes[..0]) == [] && Of([], family) == [] && Situations([]) == [] && Incidents([]) == []
  {
  }

  lemma PoolStep(outcomes: seq<Outcome>, k: nat)
    requires (forall o :: o in outcomes ==> WellFormed(o)) && k < |outcomes|
    ensures WellFormed(outcomes[k])
    ensures Pool(outcomes[..k + 1]) == Pool(outcomes[..k]) + ItemsTo(outcomes[k], |outcomes[k].truth|)
  {
    assert outcomes[k] in outcomes;
    assert outcomes[..k + 1][..k] == outcomes[..k];
  }

  lemma ItemsNone(before: seq<Item>, o: Outcome)
    requires WellFormed(o)
    ensures before + ItemsTo(o, 0) == before
  {
  }

  /** What one more activation of a stream adds to the pooled labels. */
  lemma ItemStep(before: seq<Item>, o: Outcome, i: nat, family: Option<string>)
    requires WellFormed(o) && i < |o.truth|
    ensures Skipped(o, i) ==> before + ItemsTo(o, i + 1) == before + ItemsTo(o, i)
    ensures !Skipped(o, i) ==>
              var x := Item(o.name, o.truth[i], o.family[i], o.pred[i]);
              var all, now := before + ItemsTo(o, i), before + ItemsTo(o, i + 1);
              && IncidentsIn(now) == Added(IncidentsIn(all), SituationOf(x), x.incident)
              && (if family == None || Some(x.family) == family then
                    && Situations(Of(now, family)) == Situations(Of(all, family)) + [SituationOf(x)]
                    && Incidents(Of(now, family)) == Incidents(Of(all, family)) + [IncidentOf(x)]
                    && PiecesOf(Of(now, family)) == Added(PiecesOf(Of(all, family)), IncidentOf(x), x.sit)
                  else Of(now, family) == Of(all, family))
  {
    hide PiecesOf, IncidentsIn, Situations, Incidents, Of;
    if !Skipped(o, i) {
      var x := Item(o.name, o.truth[i], o.family[i], o.pred[i]);
      var all := before + ItemsTo(o, i);
      assert before + ItemsTo(o, i + 1) == all + [x];
      OfGrows(all, x, family);
      LabelsGrow(all, x);
      LabelsGrow(Of(all, family), x);
      assert Of(all, family) + [] == Of(all, family);
    }
  }

  lemma GroupsNone()
    ensures PiecesOf([]) == map[] && IncidentsIn([]) == map[]
  {
  }

  /** `Dice` and `Rand` already answer 1 when there is nothing to compare. */
  lemma TooFew(a: set<(nat, nat)>, b: set<(nat, nat)>, n: nat)
    requires n < 2 && a <= AllPairs(n) && b <= AllPairs(n)
    ensures Dice(a, b) == 1.0 && Rand(a, b, n) == 1.0
  {
    assert AllPairs(n) == {};
    assert a == {} && b == {};
  }

  method Scores(pred: seq<Situation>, truth: seq<Incident>) returns (f1: real, ari: real)
    requires |pred| == |truth|
    ensures f1 == Dice(Together(pred), Together(truth))
    ensures ari == Rand(Together(pred), Together(truth), |pred|)
  {
    hide Together, Dice, Rand;
    TogetherBounded(pred);
    TogetherBounded(truth);
    if |pred| < 2 {
      TooFew(Together(pred), Together(truth), |pred|);
    }
    var a := PairwiseF1(pred, truth);
    var b := AdjustedRandIndex(pred, truth);
    f1, ari := a.value, b.value;
  }

  method Work(pieces: map<Incident, set<int>>, inside: map<Situation, set<string>>, pred: seq<Situation>,
              ghost all: seq<Item>, ghost items: seq<Item>)
    returns (merges: int, moves: int)
    requires pieces == PiecesOf(items) && inside == IncidentsIn(all) && pred == Situations(items)
    requires forall key :: key in pred ==> key in inside
    ensures merges == MergesNeeded(items) && moves == MovesNeeded(all, items)
  {
    hide Groups, PiecesOf, IncidentsIn;
    merges := ExtraOver(pieces, pieces.Keys);
    assert (map k | k in pieces && k in pieces.Keys :: |pieces[k]| - 1) == Extra(pieces);
    var held := set key | key in pred;
    moves := ExtraOver(inside, held);
    assert (map k | k in inside && k in held :: |inside[k]| - 1)
        == (map key | key in inside && key in Situations(items) :: |inside[key]| - 1);
  }

  method OverMerge(pieces: map<Incident, set<int>>, inside: map<Situation, set<string>>,
                   family: Option<string>, ghost all: seq<Item>, ghost items: seq<Item>)
    returns (situations: int, rate: real)
    requires pieces == PiecesOf(items) && inside == IncidentsIn(all)
    ensures family == None ==> situations == |inside| && rate == Fraction(|Split(inside)|, |inside|)
    ensures family != None ==> situations == 0 && rate == Fraction(|Contaminated(all, items)|, |pieces|)
  {
    if family == None {
      var spanning := CountSplit(inside);
      situations, rate := |inside|, Fraction(spanning, |inside|);
    } else {
      var n := CountContaminated(all, items, pieces, inside);
      situations, rate := 0, Fraction(n, |pieces|);
    }
  }

  /** What a report says of the scored activations `items` among `all`, and of the streams' counts. */
  ghost predicate Reports(r: Report, all: seq<Item>, items: seq<Item>, counts: Counts, family: Option<string>) {
    && r.activations == |items| && r.incidents == |PiecesOf(items)|
    && r.pairwiseF1 == Dice(Together(Situations(items)), Together(Incidents(items)))
    && r.ari == Rand(Together(Situations(items)), Together(Incidents(items)), |items|)
    && r.merges == MergesNeeded(items) && r.moves == MovesNeeded(all, items)
    && r.repair == Fraction(r.merges + r.moves, r.incidents)
    && r.underMerge == Fraction(|Split(PiecesOf(items))|, r.incidents)
    && (family == None ==>
          r.situations == |IncidentsIn(all)| && r.overMerge == Fraction(|Split(IncidentsIn(all))|, r.situations))
    && (family != None ==> r.overMerge == Fraction(|Contaminated(all, items)|, r.incidents))
    && r.clears == counts.clears && r.negatives == counts.compared && r.concurrentPairs == counts.pairs
    && r.respectedRate == (if counts.compared != 0 then Fraction(counts.respected, counts.compared) else 1.0)
    && r.splitBagIntactRate == Fraction(counts.merged, counts.pairs)
  }

  /** `situation_metrics`. */
  method SituationMetrics(outcomes: seq<Outcome>, family: Option<string>) returns (r: Report)
    requires forall o :: o in outcomes ==> WellFormed(o)
    ensures Reports(r, Pool(outcomes), Of(Pool(outcomes), family), Pooled(outcomes, family), family)
  {
    hide Together, Dice, Rand, Contaminated, Split, PiecesOf, IncidentsIn, MergesNeeded, MovesNeeded, Pool, Of;
    hide Pooled;
    ghost var all := Pool(outcomes);
    ghost var items := Of(all, family);
    var pred, truth, pieces, inside := Gather(outcomes, family);
    var f1, ari := Scores(pred, truth);
    HeldInside(all, family);
    var merges, moves := Work(pieces, inside, pred, all, items);
    var split := CountSplit(pieces);
    var situations, overMerge := OverMerge(pieces, inside, family, all, items);
    var counts := CountsOf(outcomes, family);
    r := Report(|pred|, |pieces|, situations, f1, ari, Fraction(split, |pieces|), overMerge,
                merges, moves, Fraction(merges + moves, |pieces|), counts.clears, counts.compared,
                if counts.compared != 0 then Fraction(counts.respected, counts.compared) else 1.0,
                counts.pairs, Fraction(counts.merged, counts.pairs));
  }

  /** Without a family filter the repair work balances - merges and incidents, moves and situations,
      both make up the cells of the overlap table - and there is none exactly when the pairwise F1 is
      1, exactly when the adjusted Rand index is 1. */
  lemma ReportBalances(r: Report, outcomes: seq<Outcome>)
    requires forall o :: o in outcomes ==> WellFormed(o)
    requires Reports(r, Pool(outcomes), Of(Pool(outcomes), None), Pooled(outcomes, None), None)
    ensures r.merges + r.incidents == |Overlaps(Pool(outcomes))| == r.moves + r.situations
    ensures r.repair == 0.0 <==> r.pairwiseF1 == 1.0
    ensures r.repair == 0.0 <==> r.ari == 1.0
    ensures r.repair == 0.0 <==> Together(Situations(Pool(outcomes))) == Together(Incidents(Pool(outcomes)))
  {
    hide Together, Dice, Rand, Contaminated, Split, PiecesOf, IncidentsIn, MergesNeeded, MovesNeeded, Pool, Of;
    hide Overlaps;
    var items := Pool(outcomes);
    OfAll(items);
    WorkBalances(items);
    NoWorkNoDifference(items);
    NothingToRepair(items);
    NoItems(items);
    FractionZero(r.merges + r.moves, r.incidents);
    TogetherBounded(Situations(items));
    TogetherBounded(Incidents(items));
    if |items| < 2 {
      TooFew(Together(Situations(items)), Together(Incidents(items)), |items|);
    }
  }

  lemma FractionZero(part: int, whole: int)
    requires part >= 0 && whole >= 0 && (whole == 0 ==> part == 0)
    ensures Fraction(part, whole) == 0.0 <==> part == 0
  {
  }

  lemma OfAll(items: seq<Item>)
    ensures Of(items, None) == items
  {
    if items != [] {
      assert items == items[..|items| - 1] + [items[|items| - 1]];
    }
  }

  lemma {:induction false} OfMembers(all: seq<Item>, family: Option<string>)
    ensures forall x :: x in Of(all, family) ==> x in all
  {
    if all != [] {
      OfMembers(all[..|all| - 1], family);
      assert all == all[..|all| - 1] + [all[|all| - 1]];
    }
  }

  lemma HeldInside(all: seq<Item>, family: Option<string>)
    ensures forall key :: key in Situations(Of(all, family)) ==> key in IncidentsIn(all)
  {
    var items := Of(all, family);
    OfMembers(all, family);
    forall key | key in Situations(items)
      ensures key in IncidentsIn(all)
    {
      var i :| 0 <= i < |items| && key == SituationOf(items[i]);
      assert items[i] in all;
      var j :| 0 <= j < |all| && all[j] == items[i];
      assert Situations(all)[j] == key;
    }
  }

  lemma SomePiece(items: seq<Item>)
    ensures items != [] ==> PiecesOf(items) != map[]
  {
    if items != [] {
      assert Incidents(items)[0] in PiecesOf(items);
    }
  }

  lemma NoItems(items: seq<Item>)
    ensures |PiecesOf(items)| == 0 ==> MergesNeeded(items) == 0 && MovesNeeded(items, items) == 0
  {
    SomePiece(items);
    if |PiecesOf(items)| == 0 {
      assert PiecesOf(items) == map[];
      SumEmpty(Extra(PiecesOf(items)));
      MovesOfAll(items);
      assert items == [];
      GroupsNone();
      SumEmpty(Extra(IncidentsIn(items)));
    }
  }

  // ---------- asserted negatives ----------

  /** Prediction and truth put the same items together. */
  ghost predicate Agree(items: seq<Item>) {
    forall x, y :: x in items && y in items ==> (SituationOf(x) == SituationOf(y) <==> IncidentOf(x) == IncidentOf(y))
  }

  lemma TogetherAgree(items: seq<Item>)
    requires Together(Situations(items)) == Together(Incidents(items))
    ensures Agree(items)
  {
    SamePairs(Situations(items), Incidents(items));
    forall x, y | x in items && y in items
      ensures SituationOf(x) == SituationOf(y) <==> IncidentOf(x) == IncidentOf(y)
    {
      var i :| 0 <= i < |items| && items[i] == x;
      var j :| 0 <= j < |items| && items[j] == y;
      assert Situations(items)[i] == SituationOf(x) && Situations(items)[j] == SituationOf(y);
      assert Incidents(items)[i] == IncidentOf(x) && Incidents(items)[j] == IncidentOf(y);
    }
  }

  lemma {:induction false} ItemIn(o: Outcome, n: nat, i: nat)
    requires WellFormed(o) && i < n <= |o.truth| && !Skipped(o, i)
    ensures Item(o.name, o.truth[i], o.family[i], o.pred[i]) in ItemsTo(o, n)
  {
    if i < n - 1 {
      ItemIn(o, n - 1, i);
    }
  }

  lemma AllRespected(o: Outcome, family: Option<string>, items: seq<Item>)
    requires WellFormed(o) && Fair(o) && Agree(items)
    requires forall x :: x in ItemsTo(o, |o.truth|) ==> x in items
    ensures Marked(|o.compared|, IsRespected(o, family)) == Marked(|o.compared|, IsNegative(o, family))
  {
    forall k: nat | k < |o.compared| && IsNegative(o, family)(k)
      ensures IsRespected(o, family)(k)
    {
      var c := o.compared[k];
      assert c in o.compared;
      ItemIn(o, |o.truth|, c.a);
      ItemIn(o, |o.truth|, c.b);
      var x := Item(o.name, o.truth[c.a], o.family[c.a], o.pred[c.a]);
      var y := Item(o.name, o.truth[c.b], o.family[c.b], o.pred[c.b]);
      assert IncidentOf(x) != IncidentOf(y);
      assert SituationOf(x) != SituationOf(y);
    }
  }

  lemma {:induction false} PooledRespected(outcomes: seq<Outcome>, family: Option<string>, items: seq<Item>)
    requires (forall o :: o in outcomes ==> WellFormed(o) && Fair(o)) && Agree(items)
    requires forall x :: x in Pool(outcomes) ==> x in items
    ensures Pooled(outcomes, family).respected == Pooled(outcomes, family).compared
  {
    if outcomes != [] {
      var rest, o := outcomes[..|outcomes| - 1], outcomes[|outcomes| - 1];
      assert o in outcomes;
      assert forall x :: x in Pool(rest) || x in ItemsTo(o, |o.truth|) ==> x in Pool(outcomes);
      PooledRespected(rest, family, items);
      AllRespected(o, family, items);
    }
  }

  /** Where no repair work is left, every asserted negative was respected. */
  lemma NoWorkRespectsAll(outcomes: seq<Outcome>, family: Option<string>)
    requires forall o :: o in outcomes ==> WellFormed(o) && Fair(o)
    requires MergesNeeded(Pool(outcomes)) + MovesNeeded(Pool(outcomes), Pool(outcomes)) == 0
    ensures Pooled(outcomes, family).respected == Pooled(outcomes, family).compared
  {
    NoWorkNoDifference(Pool(outcomes));
    TogetherAgree(Pool(outcomes));
    PooledRespected(outcomes, family, Pool(outcomes));
  }
}
