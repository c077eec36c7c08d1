/**
 What the numbers of a report are, counted straight off the outcomes: over which activations, compared pairs
 and concurrent incidents each is a sum, and when each rate is nothing or all.
 */
module Readings {
  import opened Wrappers
  import opened Sums
  import opened Pairs
  import opened Metrics
  import opened Outcomes
  import opened Replay
  import opened StreamRates
  import opened Scoring

  // ---------- counting over streams ----------

  /** What `f` finds in each outcome, tagged with the outcome's position. */
  ghost function Over<X>(outcomes: seq<Outcome>, f: Outcome -> set<X>): set<(nat, X)> {
    set k: nat, x | k < |outcomes| && x in f(outcomes[k]) :: (k, x)
  }

  ghost function Total<X>(outcomes: seq<Outcome>, f: Outcome -> set<X>): nat {
    if outcomes == [] then 0 else Total(outcomes[..|outcomes| - 1], f) + |f(outcomes[|outcomes| - 1])|
  }

  ghost function Tagged<X>(n: nat, xs: set<X>): set<(nat, X)> {
    set x | x in xs :: (n, x)
  }

  lemma {:induction false} TaggedSize<X>(n: nat, xs: set<X>)
    ensures |Tagged(n, xs)| == |xs|
  {
    if xs == {} {
      assert Tagged(n, xs) == {};
    } else {
      var x :| x in xs;
      TaggedSize(n, xs - {x});
      assert Tagged(n, xs) == Tagged(n, xs - {x}) + {(n, x)};
    }
  }

  lemma {:induction false} OverSize<X>(outcomes: seq<Outcome>, f: Outcome -> set<X>)
    ensures |Over(outcomes, f)| == Total(outcomes, f)
  {
    if outcomes == [] {
      assert Over(outcomes, f) == {};
    } else {
      var n := |outcomes| - 1;
      var rest, last := outcomes[..n], Tagged(n, f(outcomes[n]));
      OverSize(rest, f);
      TaggedSize(n, f(outcomes[n]));
      forall e
        ensures e in Over(outcomes, f) <==> e in Over(rest, f) || e in last
      {
      }
      assert Over(outcomes, f) == Over(rest, f) + last && Over(rest, f) !! last;
    }
  }

  lemma OverEmpty<X>(outcomes: seq<Outcome>, f: Outcome -> set<X>)
    ensures |Over(outcomes, f)| == 0 <==> forall k :: 0 <= k < |outcomes| ==> f(outcomes[k]) == {}
  {
    if k :| 0 <= k < |outcomes| && f(outcomes[k]) != {} {
      var x :| x in f(outcomes[k]);
      assert (k, x) in Over(outcomes, f);
    }
    if forall k :: 0 <= k < |outcomes| ==> f(outcomes[k]) == {} {
      assert Over(outcomes, f) == {};
    }
  }

  // ---------- what is read stream by stream ----------

  /** An activation by an unrecognised clear. */
  ghost predicate IsHidden(o: Outcome, i: nat) {
    i < |o.clear| && o.clear[i] == true
  }

  ghost predicate OfFamily(family: Option<string>, f: string) {
    match family case None => true case Some(name) => f == name
  }

  ghost function ClearsIn(family: Option<string>): Outcome -> set<nat> {
    (o: Outcome) => set i: nat | i < |o.truth| && i < |o.family| && IsHidden(o, i) && OfFamily(family, o.family[i])
  }

  /** A compared pair of two incidents, neither end hidden, one end of the family. */
  ghost predicate IsAsserted(o: Outcome, family: Option<string>, c: Compared) {
    && c.a < |o.truth| && c.a < |o.family| && c.b < |o.truth| && c.b < |o.family|
    && c.same == false && !IsHidden(o, c.a) && !IsHidden(o, c.b)
    && (OfFamily(family, o.family[c.a]) || OfFamily(family, o.family[c.b]))
  }

  ghost function AssertedIn(family: Option<string>): Outcome -> set<nat> {
    (o: Outcome) => set k: nat | k < |o.compared| && IsAsserted(o, family, o.compared[k])
  }

  /** ... whose two ends were given one situation. */
  ghost predicate EndsTogether(o: Outcome, c: Compared) {
    c.a < |o.pred| && c.b < |o.pred| && o.pred[c.a] == o.pred[c.b]
  }

  ghost function BrokenIn(family: Option<string>): Outcome -> set<nat> {
    (o: Outcome) =>
      set k: nat | k < |o.compared| && IsAsserted(o, family, o.compared[k]) && EndsTogether(o, o.compared[k])
  }

  /** An incident and the one it runs alongside both have activations, one at least of the family. */
  ghost predicate BothOccur(o: Outcome, family: Option<string>, key: string, anchor: string) {
    && (exists i :: 0 <= i < |o.truth| && o.truth[i] == key)
    && (exists i :: 0 <= i < |o.truth| && o.truth[i] == anchor)
    && (family == None
        || exists i :: 0 <= i < |o.truth| && i < |o.family| && (o.truth[i] == key || o.truth[i] == anchor)
                       && o.family[i] == family.value)
  }

  ghost function ConcurrentsIn(family: Option<string>): Outcome -> set<string> {
    (o: Outcome) => set key | key in o.concurrent && BothOccur(o, family, key, o.concurrent[key])
  }

  ghost predicate Meet(o: Outcome, key: string, anchor: string) {
    exists i, j :: 0 <= i < |o.truth| && 0 <= j < |o.truth| && i < |o.pred| && j < |o.pred|
                   && o.truth[i] == key && o.truth[j] == anchor && o.pred[i] == o.pred[j]
  }

  ghost function MetIn(family: Option<string>): Outcome -> set<string> {
    (o: Outcome) =>
      set key | key in o.concurrent && BothOccur(o, family, key, o.concurrent[key]) && Meet(o, key, o.concurrent[key])
  }

  lemma ClearsAre(o: Outcome, family: Option<string>)
    requires WellFormed(o)
    ensures Marked(|o.truth|, IsClear(o, family)) == ClearsIn(family)(o)
  {
  }

  lemma AssertedAre(o: Outcome, family: Option<string>)
    requires WellFormed(o)
    ensures Marked(|o.compared|, IsNegative(o, family)) == AssertedIn(family)(o)
    ensures |Marked(|o.compared|, IsRespected(o, family))| == |AssertedIn(family)(o)| - |BrokenIn(family)(o)|
  {
    var asserted, broken := AssertedIn(family)(o), BrokenIn(family)(o);
    var kept := Marked(|o.compared|, IsRespected(o, family));
    assert forall k :: 0 <= k < |o.compared| ==> o.compared[k] in o.compared;
    assert Marked(|o.compared|, IsNegative(o, family)) == asserted;
    assert asserted == broken + kept && broken !! kept;
  }

  lemma ConcurrentsAre(o: Outcome, family: Option<string>)
    requires WellFormed(o)
    ensures ConcurrentIn(o, family, o.concurrent.Keys) == ConcurrentsIn(family)(o)
    ensures MergedIn(o, family, o.concurrent.Keys) == MetIn(family)(o)
  {
    forall key | key in o.concurrent
      ensures IsConcurrent(o, family, key) <==> BothOccur(o, family, key, o.concurrent[key])
      ensures IsMerged(o, family, key)
              <==> BothOccur(o, family, key, o.concurrent[key]) && Meet(o, key, o.concurrent[key])
    {
      ConcurrentIs(o, family, key);
    }
  }

  lemma ConcurrentIs(o: Outcome, family: Option<string>, key: string)
    requires WellFormed(o) && key in o.concurrent
    ensures IsConcurrent(o, family, key) <==> BothOccur(o, family, key, o.concurrent[key])
    ensures IsMerged(o, family, key)
            <==> BothOccur(o, family, key, o.concurrent[key]) && Meet(o, key, o.concurrent[key])
  {
    var anchor := o.concurrent[key];
    assert key in o.truth <==> exists i :: 0 <= i < |o.truth| && o.truth[i] == key;
    assert anchor in o.truth <==> exists i :: 0 <= i < |o.truth| && o.truth[i] == anchor;
  }

  lemma {:induction false} PooledTells(outcomes: seq<Outcome>, family: Option<string>)
    requires forall o :: o in outcomes ==> WellFormed(o)
    ensures var c := Pooled(outcomes, family);
            && c.clears == Total(outcomes, ClearsIn(family))
            && c.compared == Total(outcomes, AssertedIn(family))
            && c.respected == c.compared - Total(outcomes, BrokenIn(family))
            && c.pairs == Total(outcomes, ConcurrentsIn(family))
            && c.merged == Total(outcomes, MetIn(family))
  {
    hide ClearsIn, AssertedIn, BrokenIn, ConcurrentsIn, MetIn, Marked, IsClear, IsNegative, IsRespected;
    hide ConcurrentIn, MergedIn, WellFormed;
    if outcomes != [] {
      var rest, o := outcomes[..|outcomes| - 1], outcomes[|outcomes| - 1];
      assert o in outcomes;
      PooledTells(rest, family);
      ClearsAre(o, family);
      AssertedAre(o, family);
      ConcurrentsAre(o, family);
    }
  }

  /** The part of `whole` that a rate stands for. */
  ghost predicate IsRate(rate: real, part: int, whole: int, none: real) {
    if whole == 0 then rate == none else rate * whole as real == part as real
  }

  lemma FractionIs(part: int, whole: int)
    ensures IsRate(Fraction(part, whole), part, whole, 0.0)
    ensures 0 <= part <= whole ==> (Fraction(part, whole) == 0.0 <==> part == 0)
    ensures 0 <= part <= whole && whole > 0 ==> (Fraction(part, whole) == 1.0 <==> part == whole)
  {
    if whole != 0 {
      var rate, w := Fraction(part, whole), whole as real;
      assert rate * w == part as real;
    }
  }

  /** The counts read stream by stream: unrecognised clears of the family; compared pairs that assert a negative,
      of which the rate leaves out exactly those whose ends share a situation, and is 1 exactly when there is no
      such pair; concurrent incidents, of which the rate counts exactly those that share one with their anchor. */
  lemma StreamsTell(r: Report, outcomes: seq<Outcome>, family: Option<string>)
    requires forall o :: o in outcomes ==> WellFormed(o)
    requires Reports(r, Pool(outcomes), Of(Pool(outcomes), family), Pooled(outcomes, family), family)
    ensures r.clears == |Over(outcomes, ClearsIn(family))|
    ensures r.negatives == |Over(outcomes, AssertedIn(family))|
    ensures IsRate(r.respectedRate, r.negatives - |Over(outcomes, BrokenIn(family))|, r.negatives, 1.0)
    ensures r.respectedRate == 1.0 <==> forall k :: 0 <= k < |outcomes| ==> BrokenIn(family)(outcomes[k]) == {}
    ensures r.concurrentPairs == |Over(outcomes, ConcurrentsIn(family))|
    ensures IsRate(r.splitBagIntactRate, |Over(outcomes, MetIn(family))|, r.concurrentPairs, 0.0)
    ensures r.splitBagIntactRate == 0.0 <==> forall k :: 0 <= k < |outcomes| ==> MetIn(family)(outcomes[k]) == {}
  {
    hide ClearsIn, AssertedIn, BrokenIn, ConcurrentsIn, MetIn, WellFormed, Over, Total, Pooled, Pool, Of, Fraction;
    hide PiecesOf, IncidentsIn, Together, Dice, Rand, Split, Contaminated, MergesNeeded, MovesNeeded;
    PooledTells(outcomes, family);
    PooledBounds(outcomes, family);
    OverSize(outcomes, ClearsIn(family));
    OverSize(outcomes, AssertedIn(family));
    OverSize(outcomes, BrokenIn(family));
    OverSize(outcomes, ConcurrentsIn(family));
    OverSize(outcomes, MetIn(family));
    OverEmpty(outcomes, BrokenIn(family));
    OverEmpty(outcomes, MetIn(family));
    var c := Pooled(outcomes, family);
    FractionIs(c.respected, c.compared);
    FractionIs(c.merged, c.pairs);
  }

  // ---------- the activations scored ----------

  /** The activations scored: of the family, and no unrecognised clear. */
  ghost function AskedIn(family: Option<string>): Outcome -> set<nat> {
    (o: Outcome) => set i: nat | i < |o.truth| && i < |o.family| && !IsHidden(o, i) && OfFamily(family, o.family[i])
  }

  /** The activations at these positions, in this order. */
  ghost function ItemsAt(outcomes: seq<Outcome>, at: seq<(nat, nat)>): seq<Item>
    requires forall o :: o in outcomes ==> WellFormed(o)
    requires forall e :: e in at ==> e.0 < |outcomes| && e.1 < |outcomes[e.0].truth|
  {
    seq(|at|, m requires 0 <= m < |at| => assert at[m] in at; ItemAt(outcomes[at[m].0], at[m].1))
  }

  ghost predicate Before(e: (nat, nat), f: (nat, nat)) {
    e.0 < f.0 || (e.0 == f.0 && e.1 < f.1)
  }

  ghost predicate InTurn(at: seq<(nat, nat)>) {
    forall i, j :: 0 <= i < j < |at| ==> Before(at[i], at[j])
  }

  lemma {:induction false} OfJoined(a: seq<Item>, b: seq<Item>, family: Option<string>)
    ensures Of(a + b, family) == Of(a, family) + Of(b, family)
  {
    if b == [] {
      assert a + b == a;
    } else {
      assert (a + b)[..|a + b| - 1] == a + b[..|b| - 1];
      OfJoined(a, b[..|b| - 1], family);
    }
  }

  ghost predicate Lists(at: seq<nat>, o: Outcome, n: nat, family: Option<string>) {
    && (forall i, j :: 0 <= i < j < |at| ==> at[i] < at[j])
    && forall i: nat :: i in at <==> i < n && i in AskedIn(family)(o)
  }

  lemma AskedMeans(o: Outcome, family: Option<string>, i: nat)
    requires WellFormed(o)
    ensures i in AskedIn(family)(o) <==>
            i < |o.truth| && !Skipped(o, i) && (family == None || Some(o.family[i]) == family)
  {
  }

  lemma OneItemMore(o: Outcome, n: nat, family: Option<string>)
    requires WellFormed(o) && 0 < n <= |o.truth|
    ensures Of(ItemsTo(o, n), family) ==
            Of(ItemsTo(o, n - 1), family) + if n - 1 in AskedIn(family)(o) then [ItemAt(o, n - 1)] else []
  {
    hide AskedIn, WellFormed, Skipped, Of;
    AskedMeans(o, family, n - 1);
    if !Skipped(o, n - 1) {
      OfGrows(ItemsTo(o, n - 1), ItemAt(o, n - 1), family);
      FamilyOf(o, n - 1);
    }
  }

  lemma FamilyOf(o: Outcome, i: nat)
    requires WellFormed(o) && i < |o.truth|
    ensures i < |o.family| && ItemAt(o, i).family == o.family[i]
  {
  }

  lemma {:induction false} StreamItems(o: Outcome, n: nat, family: Option<string>) returns (at: seq<nat>)
    requires WellFormed(o) && n <= |o.truth|
    ensures Lists(at, o, n, family) && forall m :: 0 <= m < |at| ==> at[m] in at && at[m] < |o.truth|
    ensures Of(ItemsTo(o, n), family) == seq(|at|, m requires 0 <= m < |at| => ItemAt(o, at[m]))
  {
    hide AskedIn, WellFormed, ItemAt, Of, ItemsTo, Lists;
    at := [];
    if n == 0 {
      NoItemsYet(o, family);
    } else {
      at := StreamItems(o, n - 1, family);
      OneItemMore(o, n, family);
      ListsMore(at, o, n, family);
      if n - 1 in AskedIn(family)(o) {
        at := at + [n - 1];
      }
    }
  }

  lemma ListsMore(at: seq<nat>, o: Outcome, n: nat, family: Option<string>)
    requires 0 < n <= |o.truth| && Lists(at, o, n - 1, family)
    ensures Lists(if n - 1 in AskedIn(family)(o) then at + [n - 1] else at, o, n, family)
    ensures forall m :: 0 <= m < |at| ==> at[m] in at && at[m] < n - 1
  {
    hide AskedIn;
    assert forall m :: 0 <= m < |at| ==> at[m] in at;
  }

  lemma NoItemsYet(o: Outcome, family: Option<string>)
    requires WellFormed(o)
    ensures Of(ItemsTo(o, 0), family) == [] && Lists([], o, 0, family)
  {
  }

  /** These positions are those of the activations scored, each once, in order. */
  ghost predicate Places(at: seq<(nat, nat)>, outcomes: seq<Outcome>, family: Option<string>) {
    && InTurn(at) && (forall e :: e in at <==> e in Over(outcomes, AskedIn(family)))
    && forall e :: e in at ==> e.0 < |outcomes| && e.1 < |outcomes[e.0].truth|
  }

  /** The items a report is about are exactly the activations scored, stream by stream and in order, each once. */
  lemma {:induction false} ItemsTell(outcomes: seq<Outcome>, family: Option<string>) returns (at: seq<(nat, nat)>)
    requires forall o :: o in outcomes ==> WellFormed(o)
    ensures Places(at, outcomes, family)
    ensures Of(Pool(outcomes), family) == ItemsAt(outcomes, at)
  {
    hide WellFormed, ItemAt, ItemsTo, Of;
    at := [];
    if outcomes == [] {
      OfNothing(family);
    } else {
      var n := |outcomes| - 1;
      var rest, o := outcomes[..n], outcomes[n];
      assert o in outcomes;
      at := ItemsTell(rest, family);
      var last := StreamItems(o, |o.truth|, family);
      OfJoined(Pool(rest), ItemsTo(o, |o.truth|), family);
      JoinPlaces(outcomes, family, at, last);
      JoinItems(outcomes, family, at, last);
      at := at + Placed(n, last);
    }
  }

  ghost function Placed(n: nat, last: seq<nat>): seq<(nat, nat)> {
    seq(|last|, m requires 0 <= m < |last| => (n, last[m]))
  }

  lemma JoinPlaces(outcomes: seq<Outcome>, family: Option<string>, at: seq<(nat, nat)>, last: seq<nat>)
    requires outcomes != [] && Places(at, outcomes[..|outcomes| - 1], family)
    requires var o := outcomes[|outcomes| - 1];
             && Lists(last, o, |o.truth|, family)
             && forall m :: 0 <= m < |last| ==> last[m] in last && last[m] < |o.truth|
    ensures Places(at + Placed(|outcomes| - 1, last), outcomes, family)
  {
    hide AskedIn, Over, Lists;
    var n := |outcomes| - 1;
    var all := at + Placed(n, last);
    assert forall i :: 0 <= i < |at| ==> at[i] in at;
    forall e
      ensures e in all <==> e in Over(outcomes, AskedIn(family))
    {
      JoinMembers(outcomes, family, at, last, e);
    }
    JoinTurns(at, n, last, outcomes, family);
    forall e | e in all
      ensures e.0 < |outcomes| && e.1 < |outcomes[e.0].truth|
    {
      if e !in at {
        var m :| 0 <= m < |last| && e == (n, last[m]);
      }
    }
  }

  lemma JoinTurns(at: seq<(nat, nat)>, n: nat, last: seq<nat>, outcomes: seq<Outcome>, family: Option<string>)
    requires InTurn(at) && (forall e :: e in at ==> e.0 < n) && n < |outcomes|
    requires Lists(last, outcomes[n], |outcomes[n].truth|, family)
    ensures InTurn(at + Placed(n, last))
  {
    hide AskedIn;
    assert forall i :: 0 <= i < |at| ==> at[i] in at;
  }

  lemma JoinItems(outcomes: seq<Outcome>, family: Option<string>, at: seq<(nat, nat)>, last: seq<nat>)
    requires outcomes != [] && forall o :: o in outcomes ==> WellFormed(o)
    requires Places(at, outcomes[..|outcomes| - 1], family)
    requires Places(at + Placed(|outcomes| - 1, last), outcomes, family)
    requires forall m :: 0 <= m < |last| ==> last[m] < |outcomes[|outcomes| - 1].truth|
    ensures outcomes[|outcomes| - 1] in outcomes && forall o :: o in outcomes[..|outcomes| - 1] ==> WellFormed(o)
    ensures var n := |outcomes| - 1;
            ItemsAt(outcomes, at + Placed(n, last))
            == ItemsAt(outcomes[..n], at) + seq(|last|, m requires 0 <= m < |last| => ItemAt(outcomes[n], last[m]))
  {
    hide WellFormed, AskedIn, ItemAt, Over, InTurn;
    assert forall i :: 0 <= i < |at| ==> at[i] in at;
  }

  lemma JoinMembers(outcomes: seq<Outcome>, family: Option<string>, at: seq<(nat, nat)>, last: seq<nat>, e: (nat, nat))
    requires outcomes != []
    requires forall f :: f in at <==> f in Over(outcomes[..|outcomes| - 1], AskedIn(family))
    requires var o := outcomes[|outcomes| - 1]; Lists(last, o, |o.truth|, family)
    ensures e in at + Placed(|outcomes| - 1, last) <==> e in Over(outcomes, AskedIn(family))
  {
    var n := |outcomes| - 1;
    var tail := Placed(n, last);
    assert forall i: nat :: i in AskedIn(family)(outcomes[n]) ==> i < |outcomes[n].truth|;
    hide AskedIn;
    assert e in Over(outcomes[..n], AskedIn(family)) <==> e.0 < n && e in Over(outcomes, AskedIn(family));
    if e.0 == n && e.1 in last {
      var m :| 0 <= m < |last| && last[m] == e.1;
      assert tail[m] == e;
    }
    if e in tail {
      var m :| 0 <= m < |tail| && tail[m] == e;
      assert last[m] in last;
    }
  }

  lemma OfNothing(family: Option<string>)
    ensures Of([], family) == []
  {
  }

  lemma {:induction false} TurnSize(at: seq<(nat, nat)>)
    requires InTurn(at)
    ensures |set e | e in at| == |at|
  {
    if at == [] {
      assert (set e | e in at) == {};
    } else {
      var rest, last := at[..|at| - 1], at[|at| - 1];
      TurnSize(rest);
      assert at == rest + [last];
      assert (set e | e in at) == (set e | e in rest) + {last};
      assert last !in rest;
    }
  }

  // ---------- what the pooled partition is made of ----------

  ghost function Labels<X>(items: seq<Item>, f: Item -> X): set<X> {
    set x | x in items :: f(x)
  }

  ghost function ItemOf(outcomes: seq<Outcome>, e: (nat, nat)): Item
    requires e.0 < |outcomes| && WellFormed(outcomes[e.0]) && e.1 < |outcomes[e.0].truth|
  {
    ItemAt(outcomes[e.0], e.1)
  }

  /** What `f` says of the activations scored. */
  ghost function Image<X>(outcomes: seq<Outcome>, family: Option<string>, f: Item -> X): set<X>
    requires forall o :: o in outcomes ==> WellFormed(o)
  {
    set e | e in Over(outcomes, AskedIn(family)) :: f(ItemOf(outcomes, e))
  }

  lemma ItemsAre(outcomes: seq<Outcome>, family: Option<string>, x: Item)
    requires forall o :: o in outcomes ==> WellFormed(o)
    ensures x in Of(Pool(outcomes), family) <==>
            exists e :: e in Over(outcomes, AskedIn(family)) && ItemOf(outcomes, e) == x
  {
    hide WellFormed, ItemAt, Of, Pool;
    var at := ItemsTell(outcomes, family);
    hide AskedIn, Over;
    var items := Of(Pool(outcomes), family);
    if x in items {
      var m :| 0 <= m < |items| && items[m] == x;
      assert at[m] in at && ItemOf(outcomes, at[m]) == x;
    }
    if e :| e in at && ItemOf(outcomes, e) == x {
      var m :| 0 <= m < |at| && at[m] == e;
      assert items[m] == x;
    }
  }

  lemma ImageIs<X>(outcomes: seq<Outcome>, family: Option<string>, f: Item -> X)
    requires forall o :: o in outcomes ==> WellFormed(o)
    ensures Labels(Of(Pool(outcomes), family), f) == Image(outcomes, family, f)
  {
    hide WellFormed, ItemAt, Of, Pool;
    var labels, image := Labels(Of(Pool(outcomes), family), f), Image(outcomes, family, f);
    forall y | y in labels
      ensures y in image
    {
      var x :| x in Of(Pool(outcomes), family) && f(x) == y;
      ItemsAre(outcomes, family, x);
    }
    forall y | y in image
      ensures y in labels
    {
      var e :| e in Over(outcomes, AskedIn(family)) && f(ItemOf(outcomes, e)) == y;
      ItemsAre(outcomes, family, ItemOf(outcomes, e));
    }
  }

  lemma KeysAre(items: seq<Item>)
    ensures PiecesOf(items).Keys == Labels(items, IncidentOf)
    ensures IncidentsIn(items).Keys == Labels(items, SituationOf)
  {
    forall k
      ensures k in Incidents(items) <==> k in Labels(items, IncidentOf)
    {
      if x :| x in items && IncidentOf(x) == k {
        var i :| 0 <= i < |items| && items[i] == x;
        assert Incidents(items)[i] == k;
      }
    }
    forall k
      ensures k in Situations(items) <==> k in Labels(items, SituationOf)
    {
      if x :| x in items && SituationOf(x) == k {
        var i :| 0 <= i < |items| && items[i] == x;
        assert Situations(items)[i] == k;
      }
    }
  }

  function CellOf(x: Item): (Incident, Situation) { (IncidentOf(x), SituationOf(x)) }

  lemma OverlapsAre(items: seq<Item>)
    ensures Overlaps(items) == Labels(items, CellOf)
  {
    forall c
      ensures c in Overlaps(items) <==> c in Labels(items, CellOf)
    {
      if c in Overlaps(items) {
        var i :| 0 <= i < |items| && c == (Incidents(items)[i], Situations(items)[i]);
        assert items[i] in items && CellOf(items[i]) == c;
      }
      if x :| x in items && CellOf(x) == c {
        var i :| 0 <= i < |items| && items[i] == x;
        assert c == (Incidents(items)[i], Situations(items)[i]);
      }
    }
  }

  lemma TwoOf<V>(s: set<V>)
    ensures |s| >= 2 <==> exists x, y :: x in s && y in s && x != y
  {
    if x, y :| x in s && y in s && x != y {
      Included({x, y}, s);
    }
    if |s| >= 2 {
      var x :| x in s;
      assert |s - {x}| >= 1;
      var y :| y in s - {x};
    }
  }

  /** The incidents in more than one piece. */
  ghost predicate InPieces(items: seq<Item>, t: Incident) {
    exists x, y :: x in items && y in items && IncidentOf(x) == t == IncidentOf(y) && SituationOf(x) != SituationOf(y)
  }

  /** The situations that hold more than one incident. */
  ghost predicate Spans(items: seq<Item>, s: Situation) {
    exists x, y :: x in items && y in items && SituationOf(x) == s == SituationOf(y) && IncidentOf(x) != IncidentOf(y)
  }

  lemma PieceOf(items: seq<Item>, t: Incident, s: int)
    ensures t in PiecesOf(items) && s in PiecesOf(items)[t] <==>
            exists x :: x in items && IncidentOf(x) == t && x.sit == s
  {
    if t in PiecesOf(items) && s in PiecesOf(items)[t] {
      var i :| 0 <= i < |items| && Incidents(items)[i] == t && SitsOf(items)[i] == s;
      assert items[i] in items;
    }
    if x :| x in items && IncidentOf(x) == t && x.sit == s {
      var i :| 0 <= i < |items| && items[i] == x;
      assert Incidents(items)[i] == t && SitsOf(items)[i] == s;
    }
  }

  lemma IncidentOfSit(items: seq<Item>, s: Situation, name: string)
    ensures s in IncidentsIn(items) && name in IncidentsIn(items)[s] <==>
            exists x :: x in items && SituationOf(x) == s && x.incident == name
  {
    if s in IncidentsIn(items) && name in IncidentsIn(items)[s] {
      var i :| 0 <= i < |items| && Situations(items)[i] == s && NamesOf(items)[i] == name;
      assert items[i] in items;
    }
    if x :| x in items && SituationOf(x) == s && x.incident == name {
      var i :| 0 <= i < |items| && items[i] == x;
      assert Situations(items)[i] == s && NamesOf(items)[i] == name;
    }
  }

  lemma SplitPieces(items: seq<Item>, t: Incident)
    ensures t in Split(PiecesOf(items)) <==> InPieces(items, t)
  {
    hide PiecesOf;
    if t in PiecesOf(items) {
      TwoOf(PiecesOf(items)[t]);
      forall s
        ensures s in PiecesOf(items)[t] <==> exists x :: x in items && IncidentOf(x) == t && x.sit == s
      {
        PieceOf(items, t, s);
      }
    }
    if x, y :| x in items && y in items && IncidentOf(x) == t == IncidentOf(y) && SituationOf(x) != SituationOf(y) {
      PieceOf(items, t, x.sit);
      PieceOf(items, t, y.sit);
    }
  }

  lemma SplitSits(items: seq<Item>, s: Situation)
    ensures s in Split(IncidentsIn(items)) <==> Spans(items, s)
  {
    hide IncidentsIn;
    if s in IncidentsIn(items) {
      TwoOf(IncidentsIn(items)[s]);
      forall name
        ensures name in IncidentsIn(items)[s] <==> exists x :: x in items && SituationOf(x) == s && x.incident == name
      {
        IncidentOfSit(items, s, name);
      }
    }
    if x, y :| x in items && y in items && SituationOf(x) == s == SituationOf(y) && IncidentOf(x) != IncidentOf(y) {
      IncidentOfSit(items, s, x.incident);
      IncidentOfSit(items, s, y.incident);
    }
  }

  // ---------- the operator's work ----------

  ghost function Excess<K, V>(g: map<K, set<V>>, held: set<K>): map<K, int> {
    map k | k in g && k in held :: |g[k]| - 1
  }

  ghost function Held<K, V>(g: map<K, set<V>>, held: set<K>): set<(K, V)>
    requires held <= g.Keys
  {
    set k, v | k in held && v in g[k] :: (k, v)
  }

  ghost function Row<K, V>(k: K, vs: set<V>): set<(K, V)> {
    set v | v in vs :: (k, v)
  }

  lemma {:induction false} RowSize<K, V>(k: K, vs: set<V>)
    ensures |Row(k, vs)| == |vs|
  {
    if vs == {} {
      assert Row(k, vs) == {};
    } else {
      var v :| v in vs;
      RowSize(k, vs - {v});
      assert Row(k, vs) == Row(k, vs - {v}) + {(k, v)};
    }
  }

  lemma {:induction false} ExcessSum<K, V>(g: map<K, set<V>>, held: set<K>)
    requires held <= g.Keys
    ensures Sum(Excess(g, held)) + |held| == |Held(g, held)|
    decreases held
  {
    if held == {} {
      SumEmpty(Excess(g, held));
      assert Held(g, held) == {};
    } else {
      var k :| k in held;
      var rest := held - {k};
      ExcessSum(g, rest);
      SumPut(Excess(g, rest), k, |g[k]| - 1);
      RowSize(k, g[k]);
      OneMoreHeld(g, held, k);
    }
  }

  lemma OneMoreHeld<K, V>(g: map<K, set<V>>, held: set<K>, k: K)
    requires held <= g.Keys && k in held
    ensures Excess(g, held) == Excess(g, held - {k})[k := |g[k]| - 1] && k !in Excess(g, held - {k})
    ensures |Held(g, held)| == |Held(g, held - {k})| + |Row(k, g[k])|
  {
    var rest := held - {k};
    assert Excess(g, held) == Excess(g, rest)[k := |g[k]| - 1];
    assert Held(g, held) == Held(g, rest) + Row(k, g[k]) && Held(g, rest) !! Row(k, g[k]);
  }

  lemma ExcessZero<K, V>(g: map<K, set<V>>, held: set<K>)
    requires held <= g.Keys && forall k :: k in g ==> |g[k]| >= 1
    ensures Sum(Excess(g, held)) == 0 <==> forall k :: k in held ==> |g[k]| < 2
  {
    var m := Excess(g, held);
    SumNonNegative(m);
    if Sum(m) == 0 {
      forall k | k in held
        ensures |g[k]| < 2
      {
        assert m[k] == 0;
      }
    }
    if forall k :: k in held ==> |g[k]| < 2 {
      SumZero(m);
    }
  }

  lemma NobodyEmpty(items: seq<Item>)
    ensures forall k :: k in PiecesOf(items) ==> |PiecesOf(items)[k]| >= 1
    ensures forall k :: k in IncidentsIn(items) ==> |IncidentsIn(items)[k]| >= 1
  {
    forall k | k in PiecesOf(items)
      ensures |PiecesOf(items)[k]| >= 1
    {
      var i :| 0 <= i < |items| && Incidents(items)[i] == k;
      assert SitsOf(items)[i] in PiecesOf(items)[k];
    }
    forall k | k in IncidentsIn(items)
      ensures |IncidentsIn(items)[k]| >= 1
    {
      var i :| 0 <= i < |items| && Situations(items)[i] == k;
      assert NamesOf(items)[i] in IncidentsIn(items)[k];
    }
  }

  function HoldOf(x: Item): (Situation, string) { (SituationOf(x), x.incident) }

  lemma MovesAre(all: seq<Item>, items: seq<Item>)
    requires Labels(items, SituationOf) <= Labels(all, SituationOf)
    ensures IncidentsIn(all).Keys == Labels(all, SituationOf)
    ensures MovesNeeded(all, items) == Sum(Excess(IncidentsIn(all), Labels(items, SituationOf)))
  {
    KeysAre(all);
    SitsAre(items);
    assert (map key | key in IncidentsIn(all) && key in Situations(items) :: |IncidentsIn(all)[key]| - 1)
        == Excess(IncidentsIn(all), Labels(items, SituationOf));
  }

  lemma SitsAre(items: seq<Item>)
    ensures forall key :: key in Situations(items) <==> key in Labels(items, SituationOf)
  {
    KeysAre(items);
  }

  lemma HeldAre(all: seq<Item>, held: set<Situation>)
    requires held <= Labels(all, SituationOf)
    ensures IncidentsIn(all).Keys == Labels(all, SituationOf)
    ensures Held(IncidentsIn(all), held) == set h | h in Labels(all, HoldOf) && h.0 in held
  {
    KeysAre(all);
    hide IncidentsIn;
    forall h: (Situation, string)
      ensures h in Held(IncidentsIn(all), held) <==> h in Labels(all, HoldOf) && h.0 in held
    {
      IncidentOfSit(all, h.0, h.1);
      if h in Labels(all, HoldOf) {
        var x :| x in all && HoldOf(x) == h;
      }
      if x :| x in all && SituationOf(x) == h.0 && x.incident == h.1 {
        assert HoldOf(x) == h;
      }
    }
  }

  lemma FamilyWithin(outcomes: seq<Outcome>, family: Option<string>)
    requires forall o :: o in outcomes ==> WellFormed(o)
    ensures Over(outcomes, AskedIn(family)) <= Over(outcomes, AskedIn(None))
    ensures Image(outcomes, family, SituationOf) <= Image(outcomes, None, SituationOf)
  {
    forall e | e in Over(outcomes, AskedIn(family))
      ensures e in Over(outcomes, AskedIn(None))
    {
      assert e.1 in AskedIn(None)(outcomes[e.0]);
      assert e == (e.0, e.1);
    }
  }

  /** The sizes and the operator's work, counted over the activations scored: merges and incidents together are
      the pairs of an incident and a situation that share one; moves and the situations of the family asked for
      are together the pairs of such a situation and an incident it holds, of whatever family. */
  lemma WorkTells(r: Report, outcomes: seq<Outcome>, family: Option<string>)
    requires forall o :: o in outcomes ==> WellFormed(o)
    requires Reports(r, Pool(outcomes), Of(Pool(outcomes), family), Pooled(outcomes, family), family)
    ensures r.activations == |Over(outcomes, AskedIn(family))|
    ensures r.incidents == |Image(outcomes, family, IncidentOf)|
    ensures family == None ==> r.situations == |Image(outcomes, None, SituationOf)|
    ensures r.merges + r.incidents == |Image(outcomes, family, CellOf)|
    ensures r.moves + |Image(outcomes, family, SituationOf)| ==
            |set h | h in Image(outcomes, None, HoldOf) && h.0 in Image(outcomes, family, SituationOf)|
    ensures IsRate(r.repair, r.merges + r.moves, r.incidents, 0.0)
  {
    hide WellFormed, Over, AskedIn, Pool, Of, Together, Dice, Rand, Split, Contaminated, MergesNeeded, MovesNeeded;
    hide PiecesOf, IncidentsIn, Overlaps, Labels, Image, Fraction, Pooled;
    var all, items := Pool(outcomes), Of(Pool(outcomes), family);
    OfAll(all);
    ImageIs(outcomes, family, IncidentOf);
    ImageIs(outcomes, None, SituationOf);
    ImageIs(outcomes, family, SituationOf);
    ImageIs(outcomes, family, CellOf);
    ImageIs(outcomes, None, HoldOf);
    FamilyWithin(outcomes, family);
    ItemCount(outcomes, family);
    KeysAre(items);
    KeysAre(all);
    OverlapsAre(items);
    WorkBalances(items);
    MovesAre(all, items);
    HeldAre(all, Labels(items, SituationOf));
    ExcessSum(IncidentsIn(all), Labels(items, SituationOf));
    FractionIs(r.merges + r.moves, r.incidents);
  }

  /** Two of the activations listed are of one stream name and of one final situation. */
  ghost predicate OneSituation(outcomes: seq<Outcome>, e: (nat, nat), f: (nat, nat))
    requires forall o :: o in outcomes ==> WellFormed(o)
    requires e.0 < |outcomes| && e.1 < |outcomes[e.0].truth| && f.0 < |outcomes| && f.1 < |outcomes[f.0].truth|
  {
    assert WellFormed(outcomes[e.0]) && WellFormed(outcomes[f.0]);
    outcomes[e.0].name == outcomes[f.0].name && outcomes[e.0].pred[e.1] == outcomes[f.0].pred[f.1]
  }

  /** Two of the activations listed are of one stream name and of one incident. */
  ghost predicate OneIncident(outcomes: seq<Outcome>, e: (nat, nat), f: (nat, nat))
    requires forall o :: o in outcomes ==> WellFormed(o)
    requires e.0 < |outcomes| && e.1 < |outcomes[e.0].truth| && f.0 < |outcomes| && f.1 < |outcomes[f.0].truth|
  {
    outcomes[e.0].name == outcomes[f.0].name && outcomes[e.0].truth[e.1] == outcomes[f.0].truth[f.1]
  }

  /** Both scores, counted over the pairs of activations scored: those that share a situation, those that share an
      incident, and those that share both. */
  lemma ScoresTell(r: Report, outcomes: seq<Outcome>, family: Option<string>)
    returns (at: seq<(nat, nat)>, grouped: set<(nat, nat)>, alike: set<(nat, nat)>)
    requires forall o :: o in outcomes ==> WellFormed(o)
    requires Reports(r, Pool(outcomes), Of(Pool(outcomes), family), Pooled(outcomes, family), family)
    ensures Places(at, outcomes, family)
    ensures forall x: nat, y: nat :: (x, y) in grouped <==>
              x < y < |at| && (at[x] in at && at[y] in at && OneSituation(outcomes, at[x], at[y]))
    ensures forall x: nat, y: nat :: (x, y) in alike <==>
              x < y < |at| && (at[x] in at && at[y] in at && OneIncident(outcomes, at[x], at[y]))
    ensures Shares(r.pairwiseF1, |grouped|, |alike|, |grouped * alike|)
    ensures |at| < 2 ==> r.ari == 1.0
    ensures |at| >= 2 ==>
              Corrected(r.ari, |AllPairs(|at|)| as real, |grouped| as real, |alike| as real, |grouped * alike| as real)
  {
    hide Pool, Of, Pooled, WellFormed, Places, Dice, Rand, Corrected, Reports, Together, ItemsAt, OneSituation;
    hide OneIncident, Shares, AllPairs;
    var items := Of(Pool(outcomes), family);
    at := ItemsTell(outcomes, family);
    PlacesIn(outcomes, at, family);
    grouped, alike := PairsAt(outcomes, at);
    ScoresAre(r, Pool(outcomes), items, Pooled(outcomes, family), family);
    LabelsAt(outcomes, at);
    DiceTells(grouped, alike);
    if |at| >= 2 {
      RandOver(grouped, alike, |at|);
    } else {
      NothingToCompare(grouped, alike, |at|);
    }
  }

  lemma PlacesIn(outcomes: seq<Outcome>, at: seq<(nat, nat)>, family: Option<string>)
    requires Places(at, outcomes, family)
    ensures forall e :: e in at ==> e.0 < |outcomes| && e.1 < |outcomes[e.0].truth|
  {
  }

  lemma ScoresAre(r: Report, all: seq<Item>, items: seq<Item>, counts: Counts, family: Option<string>)
    requires Reports(r, all, items, counts, family)
    ensures r.pairwiseF1 == Dice(Together(Situations(items)), Together(Incidents(items)))
    ensures r.ari == Rand(Together(Situations(items)), Together(Incidents(items)), |items|)
  {
  }

  lemma PairsAt(outcomes: seq<Outcome>, at: seq<(nat, nat)>) returns (grouped: set<(nat, nat)>, alike: set<(nat, nat)>)
    requires forall o :: o in outcomes ==> WellFormed(o)
    requires forall e :: e in at ==> e.0 < |outcomes| && e.1 < |outcomes[e.0].truth|
    ensures grouped == Together(Situations(ItemsAt(outcomes, at)))
    ensures alike == Together(Incidents(ItemsAt(outcomes, at)))
    ensures forall x: nat, y: nat :: (x, y) in grouped <==>
              x < y < |at| && (at[x] in at && at[y] in at && OneSituation(outcomes, at[x], at[y]))
    ensures forall x: nat, y: nat :: (x, y) in alike <==>
              x < y < |at| && (at[x] in at && at[y] in at && OneIncident(outcomes, at[x], at[y]))
    ensures forall p: (nat, nat) :: p in grouped + alike ==> p.0 < p.1 < |at|
  {
    hide WellFormed, ItemsAt, OneSituation, OneIncident;
    var items := ItemsAt(outcomes, at);
    LabelsAt(outcomes, at);
    hide Together;
    TogetherMeets(Situations(items));
    TogetherMeets(Incidents(items));
    grouped, alike := Together(Situations(items)), Together(Incidents(items));
  }

  lemma NothingToCompare(a: set<(nat, nat)>, b: set<(nat, nat)>, n: nat)
    requires n < 2 && (forall p: (nat, nat) :: p in a ==> p.0 < p.1 < n)
    requires forall p: (nat, nat) :: p in b ==> p.0 < p.1 < n
    ensures Rand(a, b, n) == 1.0
  {
    assert a == {} && b == {};
    assert AllPairs(n) == {};
  }

  lemma LabelsAt(outcomes: seq<Outcome>, at: seq<(nat, nat)>)
    requires forall o :: o in outcomes ==> WellFormed(o)
    requires forall e :: e in at ==> e.0 < |outcomes| && e.1 < |outcomes[e.0].truth|
    ensures var items := ItemsAt(outcomes, at);
            |items| == |at| && forall x, y :: 0 <= x < y < |at| ==>
              && at[x] in at && at[y] in at
              && (Situations(items)[x] == Situations(items)[y] <==> OneSituation(outcomes, at[x], at[y]))
              && (Incidents(items)[x] == Incidents(items)[y] <==> OneIncident(outcomes, at[x], at[y]))
  {
    hide WellFormed;
  }

  lemma ItemCount(outcomes: seq<Outcome>, family: Option<string>)
    requires forall o :: o in outcomes ==> WellFormed(o)
    ensures |Of(Pool(outcomes), family)| == |Over(outcomes, AskedIn(family))|
  {
    hide WellFormed, ItemAt, Of, Pool;
    var at := ItemsTell(outcomes, family);
    hide AskedIn, Over;
    TurnSize(at);
    assert (set e | e in at) == Over(outcomes, AskedIn(family));
  }

  // ---------- the two merge rates ----------

  /** The activations scored, by stream, incident, family and situation. */
  ghost function Shown(outcomes: seq<Outcome>, family: Option<string>): set<Item>
    requires forall o :: o in outcomes ==> WellFormed(o)
  {
    set e | e in Over(outcomes, AskedIn(family)) :: ItemOf(outcomes, e)
  }

  lemma ShownAre(outcomes: seq<Outcome>, family: Option<string>)
    requires forall o :: o in outcomes ==> WellFormed(o)
    ensures forall x :: x in Of(Pool(outcomes), family) <==> x in Shown(outcomes, family)
  {
    hide WellFormed, Of, Pool, ItemAt;
    forall x
      ensures x in Of(Pool(outcomes), family) <==> x in Shown(outcomes, family)
    {
      ItemsAre(outcomes, family, x);
    }
  }

  /** An incident with activations in two situations. */
  ghost predicate Torn(outcomes: seq<Outcome>, family: Option<string>, t: Incident)
    requires forall o :: o in outcomes ==> WellFormed(o)
  {
    exists x, y :: x in Shown(outcomes, family) && y in Shown(outcomes, family)
                   && IncidentOf(x) == t == IncidentOf(y) && SituationOf(x) != SituationOf(y)
  }

  /** A situation with activations of two incidents. */
  ghost predicate Mixed(outcomes: seq<Outcome>, s: Situation)
    requires forall o :: o in outcomes ==> WellFormed(o)
  {
    exists x, y :: x in Shown(outcomes, None) && y in Shown(outcomes, None)
                   && SituationOf(x) == s == SituationOf(y) && IncidentOf(x) != IncidentOf(y)
  }

  /** An incident one of whose activations is in such a situation. */
  ghost predicate Tainted(outcomes: seq<Outcome>, family: Option<string>, t: Incident)
    requires forall o :: o in outcomes ==> WellFormed(o)
  {
    exists x :: x in Shown(outcomes, family) && IncidentOf(x) == t && Mixed(outcomes, SituationOf(x))
  }

  lemma TornIs(outcomes: seq<Outcome>, family: Option<string>, t: Incident)
    requires forall o :: o in outcomes ==> WellFormed(o)
    ensures InPieces(Of(Pool(outcomes), family), t) <==> Torn(outcomes, family, t)
  {
    hide WellFormed, Shown, Of, Pool;
    ShownAre(outcomes, family);
  }

  lemma MixedIs(outcomes: seq<Outcome>, s: Situation)
    requires forall o :: o in outcomes ==> WellFormed(o)
    ensures Spans(Of(Pool(outcomes), None), s) <==> Mixed(outcomes, s)
  {
    hide WellFormed, Shown, Of, Pool;
    ShownAre(outcomes, None);
  }

  lemma ContaminatedIs(all: seq<Item>, items: seq<Item>, t: Incident)
    ensures t in Contaminated(all, items) <==>
            exists x :: x in items && IncidentOf(x) == t && Spans(all, SituationOf(x))
  {
    hide PiecesOf, IncidentsIn, Spans;
    KeysAre(items);
    if t in Contaminated(all, items) {
      var s :| s in PiecesOf(items)[t] && (t.0, s) in IncidentsIn(all) && |IncidentsIn(all)[(t.0, s)]| >= 2;
      PieceOf(items, t, s);
      SplitSits(all, (t.0, s));
      var x :| x in items && IncidentOf(x) == t && x.sit == s;
      assert SituationOf(x) == (t.0, s);
    }
    if x :| x in items && IncidentOf(x) == t && Spans(all, SituationOf(x)) {
      PieceOf(items, t, x.sit);
      SplitSits(all, SituationOf(x));
      assert SituationOf(x) == (t.0, x.sit);
      assert HasForeign(all, t.0, PiecesOf(items)[t]);
    }
  }

  lemma TaintedIs(outcomes: seq<Outcome>, family: Option<string>, t: Incident)
    requires forall o :: o in outcomes ==> WellFormed(o)
    ensures t in Contaminated(Pool(outcomes), Of(Pool(outcomes), family)) <==> Tainted(outcomes, family, t)
  {
    hide WellFormed, Shown, Of, Pool, Contaminated, Mixed, Spans;
    var all, items := Pool(outcomes), Of(Pool(outcomes), family);
    OfAll(all);
    ShownAre(outcomes, family);
    ContaminatedIs(all, items, t);
    forall x | x in items
      ensures Spans(all, SituationOf(x)) <==> Mixed(outcomes, SituationOf(x))
    {
      MixedIs(outcomes, SituationOf(x));
    }
  }

  lemma ShownWithin(outcomes: seq<Outcome>, family: Option<string>, x: Item)
    requires (forall o :: o in outcomes ==> WellFormed(o)) && x in Shown(outcomes, family)
    ensures IncidentOf(x) in Image(outcomes, family, IncidentOf)
    ensures SituationOf(x) in Image(outcomes, family, SituationOf)
  {
    hide WellFormed, ItemAt;
  }

  lemma TornWithin(outcomes: seq<Outcome>, family: Option<string>, t: Incident)
    requires forall o :: o in outcomes ==> WellFormed(o)
    requires Torn(outcomes, family, t) || Tainted(outcomes, family, t)
    ensures t in Image(outcomes, family, IncidentOf)
  {
    hide WellFormed, Shown, Image, Mixed;
    var x :| x in Shown(outcomes, family) && IncidentOf(x) == t;
    ShownWithin(outcomes, family, x);
  }

  lemma MixedWithin(outcomes: seq<Outcome>, s: Situation)
    requires (forall o :: o in outcomes ==> WellFormed(o)) && Mixed(outcomes, s)
    ensures s in Image(outcomes, None, SituationOf)
  {
    hide WellFormed, Shown, Image;
    var x :| x in Shown(outcomes, None) && SituationOf(x) == s;
    ShownWithin(outcomes, None, x);
  }

  ghost function TornIn(outcomes: seq<Outcome>, family: Option<string>): set<Incident>
    requires forall o :: o in outcomes ==> WellFormed(o)
  {
    set t | t in Image(outcomes, family, IncidentOf) && Torn(outcomes, family, t)
  }

  ghost function TaintedIn(outcomes: seq<Outcome>, family: Option<string>): set<Incident>
    requires forall o :: o in outcomes ==> WellFormed(o)
  {
    set t | t in Image(outcomes, family, IncidentOf) && Tainted(outcomes, family, t)
  }

  ghost function MixedIn(outcomes: seq<Outcome>): set<Situation>
    requires forall o :: o in outcomes ==> WellFormed(o)
  {
    set s | s in Image(outcomes, None, SituationOf) && Mixed(outcomes, s)
  }

  lemma SplitsAre(outcomes: seq<Outcome>, family: Option<string>)
    requires forall o :: o in outcomes ==> WellFormed(o)
    ensures Split(PiecesOf(Of(Pool(outcomes), family))) == TornIn(outcomes, family)
    ensures Split(IncidentsIn(Of(Pool(outcomes), None))) == MixedIn(outcomes)
    ensures Contaminated(Pool(outcomes), Of(Pool(outcomes), family)) == TaintedIn(outcomes, family)
  {
    hide WellFormed, AskedIn, Over, ItemOf, Mixed, Torn, Tainted, Image, Split, Contaminated, PiecesOf, IncidentsIn;
    hide Of, Pool;
    hide Spans, InPieces;
    forall t
      ensures t in Split(PiecesOf(Of(Pool(outcomes), family))) <==> t in TornIn(outcomes, family)
      ensures t in Contaminated(Pool(outcomes), Of(Pool(outcomes), family)) <==> t in TaintedIn(outcomes, family)
    {
      SplitPieces(Of(Pool(outcomes), family), t);
      TornIs(outcomes, family, t);
      TaintedIs(outcomes, family, t);
      if Torn(outcomes, family, t) || Tainted(outcomes, family, t) {
        TornWithin(outcomes, family, t);
      }
    }
    forall s
      ensures s in Split(IncidentsIn(Of(Pool(outcomes), None))) <==> s in MixedIn(outcomes)
    {
      SplitSits(Of(Pool(outcomes), None), s);
      MixedIs(outcomes, s);
      if Mixed(outcomes, s) {
        MixedWithin(outcomes, s);
      }
    }
  }

  // ---------- when the work is nothing ----------

  lemma NoMergesExactly(items: seq<Item>)
    ensures MergesNeeded(items) == 0 <==> Split(PiecesOf(items)) == {}
  {
    hide PiecesOf;
    var g := PiecesOf(items);
    NobodyEmpty(items);
    ExcessZero(g, g.Keys);
    assert Excess(g, g.Keys) == Extra(g);
    assert forall k :: k in Split(g) <==> k in g && |g[k]| >= 2;
  }

  lemma NoMovesExactly(all: seq<Item>, items: seq<Item>)
    requires Labels(items, SituationOf) <= Labels(all, SituationOf)
    ensures MovesNeeded(all, items) == 0 <==> forall x :: x in items ==> SituationOf(x) !in Split(IncidentsIn(all))
  {
    hide IncidentsIn, MovesNeeded;
    var g, held := IncidentsIn(all), Labels(items, SituationOf);
    NobodyEmpty(all);
    MovesAre(all, items);
    ExcessZero(g, held);
    forall x | x in items
      ensures SituationOf(x) in held
    {
    }
  }

  /** Where nothing is tainted, no situation asked about is split, and the other way round. */
  lemma TaintIsSplit(all: seq<Item>, items: seq<Item>)
    ensures Contaminated(all, items) == {} <==> forall x :: x in items ==> SituationOf(x) !in Split(IncidentsIn(all))
  {
    hide Contaminated, Split, IncidentsIn, Spans;
    forall x | x in items
      ensures SituationOf(x) in Split(IncidentsIn(all)) ==> IncidentOf(x) in Contaminated(all, items)
    {
      SplitSits(all, SituationOf(x));
      ContaminatedIs(all, items, IncidentOf(x));
    }
    forall t | t in Contaminated(all, items)
      ensures exists x :: x in items && SituationOf(x) in Split(IncidentsIn(all))
    {
      ContaminatedIs(all, items, t);
      var x :| x in items && IncidentOf(x) == t && Spans(all, SituationOf(x));
      SplitSits(all, SituationOf(x));
    }
  }

  lemma SplitIsHeld(all: seq<Item>)
    ensures Split(IncidentsIn(all)) == {} <==> forall x :: x in all ==> SituationOf(x) !in Split(IncidentsIn(all))
  {
    KeysAre(all);
    hide IncidentsIn;
  }

  /** Both rates, counted over the activations scored. Under-merge is the share of the incidents that lie in two
      situations, and 0 exactly when no merge is needed. Over-merge is the share of the situations that hold two
      incidents, or, asked about a family, of its incidents with an activation in such a situation; either way it
      is 0 exactly when no move is needed. */
  lemma RatesTell(r: Report, outcomes: seq<Outcome>, family: Option<string>)
    requires forall o :: o in outcomes ==> WellFormed(o)
    requires Reports(r, Pool(outcomes), Of(Pool(outcomes), family), Pooled(outcomes, family), family)
    ensures IsRate(r.underMerge, |TornIn(outcomes, family)|, r.incidents, 0.0)
    ensures r.underMerge == 0.0 <==> r.merges == 0
    ensures family == None ==> IsRate(r.overMerge, |MixedIn(outcomes)|, r.situations, 0.0)
    ensures family != None ==> IsRate(r.overMerge, |TaintedIn(outcomes, family)|, r.incidents, 0.0)
    ensures r.overMerge == 0.0 <==> r.moves == 0
  {
    hide WellFormed, Over, AskedIn, Pool, Of, Together, Dice, Rand, Split, Contaminated, MergesNeeded, MovesNeeded;
    hide PiecesOf, IncidentsIn, Labels, Image, Fraction, Pooled, TornIn, MixedIn, TaintedIn, IsRate;
    var all, items := Pool(outcomes), Of(Pool(outcomes), family);
    OfAll(all);
    SplitsAre(outcomes, family);
    ImageIs(outcomes, family, SituationOf);
    ImageIs(outcomes, None, SituationOf);
    FamilyWithin(outcomes, family);
    NoMergesExactly(items);
    NoMovesExactly(all, items);
    TaintIsSplit(all, items);
    SplitIsHeld(all);
    PartOfWhole(outcomes, family);
    KeysAre(items);
    KeysAre(all);
    ImageIs(outcomes, family, IncidentOf);
    FractionIs(|TornIn(outcomes, family)|, r.incidents);
    FractionIs(|MixedIn(outcomes)|, r.situations);
    FractionIs(|TaintedIn(outcomes, family)|, r.incidents);
    assert forall s: set<Incident> :: |s| == 0 <==> s == {};
  }

  lemma PartOfWhole(outcomes: seq<Outcome>, family: Option<string>)
    requires forall o :: o in outcomes ==> WellFormed(o)
    ensures |TornIn(outcomes, family)| <= |Image(outcomes, family, IncidentOf)|
    ensures |TaintedIn(outcomes, family)| <= |Image(outcomes, family, IncidentOf)|
    ensures |MixedIn(outcomes)| <= |Image(outcomes, None, SituationOf)|
  {
    hide WellFormed, Torn, Tainted, Mixed, Image;
    Included(TornIn(outcomes, family), Image(outcomes, family, IncidentOf));
    Included(TaintedIn(outcomes, family), Image(outcomes, family, IncidentOf));
    Included(MixedIn(outcomes), Image(outcomes, None, SituationOf));
  }
}
