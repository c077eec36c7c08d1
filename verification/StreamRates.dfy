/**
 The counts of `situation_metrics` in `eval/synth/evaluate.py` that are read stream by stream: unrecognised
 clears, asserted negatives respected, and pairs of concurrent incidents that share a situation.
 */
module StreamRates {
  import opened Wrappers
  import opened Outcomes

  predicate InFamily(family: Option<string>, f: string) {
    family == None || Some(f) == family
  }

  // ---------- one stream ----------

  ghost function Marked(n: nat, p: nat -> bool): set<nat> {
    set k: nat | k < n && p(k)
  }

  lemma MarkedGrows(n: nat, p: nat -> bool)
    ensures Marked(0, p) == {}
    ensures |Marked(n + 1, p)| == |Marked(n, p)| + if p(n) then 1 else 0
  {
    assert Marked(n + 1, p) == Marked(n, p) + (if p(n) then {n} else {});
  }

  /** An unrecognised clear of the family. */
  function IsClear(o: Outcome, family: Option<string>): nat -> bool
    requires WellFormed(o)
  {
    (i: nat) => i < |o.truth| && Skipped(o, i) && InFamily(family, o.family[i])
  }

  /** A compared pair that counts: neither is a clear, one is of the family, and they are of two incidents. */
  function IsNegative(o: Outcome, family: Option<string>): nat -> bool
    requires WellFormed(o)
  {
    (k: nat) =>
      k < |o.compared| &&
      var c := o.compared[k];
      c.a < |o.truth| && c.b < |o.truth| && !Skipped(o, c.a) && !Skipped(o, c.b) && !c.same
      && (InFamily(family, o.family[c.a]) || InFamily(family, o.family[c.b]))
  }

  /** One that ended in two situations. */
  function IsRespected(o: Outcome, family: Option<string>): nat -> bool
    requires WellFormed(o)
  {
    (k: nat) =>
      k < |o.compared| &&
      var c := o.compared[k];
      c.a < |o.truth| && c.b < |o.truth| && IsNegative(o, family)(k) && o.pred[c.a] != o.pred[c.b]
  }

  predicate Touches(o: Outcome, family: Option<string>, key: string, anchor: string)
    requires WellFormed(o)
  {
    family == None || exists i :: 0 <= i < |o.truth| && o.truth[i] in {key, anchor} && Some(o.family[i]) == family
  }

  /** A concurrent incident whose two sides both have activations, one at least of the family. */
  predicate IsConcurrent(o: Outcome, family: Option<string>, key: string)
    requires WellFormed(o) && key in o.concurrent
  {
    key in o.truth && o.concurrent[key] in o.truth && Touches(o, family, key, o.concurrent[key])
  }

  /** The two sides share a situation. */
  predicate IsMerged(o: Outcome, family: Option<string>, key: string)
    requires WellFormed(o) && key in o.concurrent
  {
    IsConcurrent(o, family, key) &&
    exists i, j :: 0 <= i < |o.truth| && 0 <= j < |o.truth|
                   && o.truth[i] == key && o.truth[j] == o.concurrent[key] && o.pred[i] == o.pred[j]
  }

  ghost function ConcurrentIn(o: Outcome, family: Option<string>, keys: set<string>): set<string>
    requires WellFormed(o) && keys <= o.concurrent.Keys
  {
    set key | key in keys && IsConcurrent(o, family, key)
  }

  ghost function MergedIn(o: Outcome, family: Option<string>, keys: set<string>): set<string>
    requires WellFormed(o) && keys <= o.concurrent.Keys
  {
    set key | key in keys && IsMerged(o, family, key)
  }

  lemma KeysGrow(o: Outcome, family: Option<string>, keys: set<string>, key: string)
    requires WellFormed(o) && keys <= o.concurrent.Keys && key in o.concurrent && key !in keys
    ensures |ConcurrentIn(o, family, keys + {key})| ==
            |ConcurrentIn(o, family, keys)| + if IsConcurrent(o, family, key) then 1 else 0
    ensures |MergedIn(o, family, keys + {key})| ==
            |MergedIn(o, family, keys)| + if IsMerged(o, family, key) then 1 else 0
  {
    hide IsConcurrent, IsMerged;
    WithOne(ConcurrentIn(o, family, keys), ConcurrentIn(o, family, keys + {key}), key, IsConcurrent(o, family, key));
    WithOne(MergedIn(o, family, keys), MergedIn(o, family, keys + {key}), key, IsMerged(o, family, key));
  }

  lemma WithOne(a: set<string>, b: set<string>, x: string, added: bool)
    requires x !in a && forall y :: y in b <==> y in a || (y == x && added)
    ensures |b| == |a| + if added then 1 else 0
  {
    assert b == a + (if added then {x} else {});
  }

  lemma NoKeys(o: Outcome, family: Option<string>)
    requires WellFormed(o)
    ensures ConcurrentIn(o, family, {}) == {} == MergedIn(o, family, {})
  {
  }

  method ClearsOf(o: Outcome, family: Option<string>) returns (n: nat)
    requires WellFormed(o)
    ensures n == |Marked(|o.truth|, IsClear(o, family))|
  {
    hide Marked;
    n := 0;
    MarkedGrows(0, IsClear(o, family));
    for i := 0 to |o.truth|
      invariant n == |Marked(i, IsClear(o, family))|
    {
      MarkedGrows(i, IsClear(o, family));
      if Skipped(o, i) && InFamily(family, o.family[i]) {
        n := n + 1;
      }
    }
  }

  method NegativesOf(o: Outcome, family: Option<string>) returns (compared: nat, respected: nat)
    requires WellFormed(o)
    ensures compared == |Marked(|o.compared|, IsNegative(o, family))|
    ensures respected == |Marked(|o.compared|, IsRespected(o, family))|
  {
    hide Marked;
    compared, respected := 0, 0;
    MarkedGrows(0, IsNegative(o, family));
    MarkedGrows(0, IsRespected(o, family));
    for k := 0 to |o.compared|
      invariant compared == |Marked(k, IsNegative(o, family))|
      invariant respected == |Marked(k, IsRespected(o, family))|
    {
      var c := o.compared[k];
      assert c in o.compared;
      MarkedGrows(k, IsNegative(o, family));
      MarkedGrows(k, IsRespected(o, family));
      if !Skipped(o, c.a) && !Skipped(o, c.b) {
        if InFamily(family, o.family[c.a]) || InFamily(family, o.family[c.b]) {
          if !c.same {
            compared := compared + 1;
            if o.pred[c.a] != o.pred[c.b] {
              respected := respected + 1;
            }
          }
        }
      }
    }
  }

  /** The situations of each incident of the stream, clears included. */
  ghost predicate ByIncident(sits: map<string, set<int>>, o: Outcome, n: nat)
    requires WellFormed(o) && n <= |o.truth|
  {
    && (forall t :: t in sits <==> t in o.truth[..n])
    && (forall t, s :: t in sits ==> (s in sits[t] <==> exists i :: 0 <= i < n && o.truth[i] == t && o.pred[i] == s))
  }

  lemma ByIncidentGrows(sits: map<string, set<int>>, o: Outcome, n: nat)
    requires WellFormed(o) && n < |o.truth| && ByIncident(sits, o, n)
    ensures var t := o.truth[n];
            ByIncident(sits[t := (if t in sits then sits[t] else {}) + {o.pred[n]}], o, n + 1)
  {
    var t := o.truth[n];
    var grown := sits[t := (if t in sits then sits[t] else {}) + {o.pred[n]}];
    assert o.truth[..n + 1] == o.truth[..n] + [t];
    forall u, s | u in grown
      ensures s in grown[u] <==> exists i :: 0 <= i < n + 1 && o.truth[i] == u && o.pred[i] == s
    {
      if s in grown[u] {
        if u == t && s == o.pred[n] {
        } else {
          var i :| 0 <= i < n && o.truth[i] == u && o.pred[i] == s;
        }
      }
    }
  }

  method SituationsOf(o: Outcome) returns (sits: map<string, set<int>>)
    requires WellFormed(o)
    ensures ByIncident(sits, o, |o.truth|)
  {
    sits := map[];
    assert ByIncident(sits, o, 0);
    hide ByIncident;
    for i := 0 to |o.truth|
      invariant ByIncident(sits, o, i)
    {
      var t := o.truth[i];
      ByIncidentGrows(sits, o, i);
      sits := sits[t := (if t in sits then sits[t] else {}) + {o.pred[i]}];
    }
  }

  method ConcurrentOf(o: Outcome, family: Option<string>) returns (pairs: nat, merged: nat)
    requires WellFormed(o)
    ensures pairs == |ConcurrentIn(o, family, o.concurrent.Keys)|
    ensures merged == |MergedIn(o, family, o.concurrent.Keys)|
  {
    hide WellFormed, ByIncident, Touches, IsConcurrent, IsMerged, ConcurrentIn, MergedIn;
    pairs, merged := 0, 0;
    var sits := SituationsOf(o);
    var left := o.concurrent.Keys;
    ghost var done: set<string> := {};
    NoKeys(o, family);
    while left != {}
      invariant left + done == o.concurrent.Keys && left !! done
      invariant pairs == |ConcurrentIn(o, family, done)| && merged == |MergedIn(o, family, done)|
      decreases left
    {
      var key :| key in left;
      var anchor := o.concurrent[key];
      Sharing(sits, o, family, key);
      KeysGrow(o, family, done, key);
      if key in sits && anchor in sits && Touches(o, family, key, anchor) {
        pairs := pairs + 1;
        if sits[key] * sits[anchor] != {} {
          merged := merged + 1;
        }
      }
      left, done := left - {key}, done + {key};
    }
    assert done == o.concurrent.Keys;
  }

  lemma Sharing(sits: map<string, set<int>>, o: Outcome, family: Option<string>, key: string)
    requires WellFormed(o) && ByIncident(sits, o, |o.truth|) && key in o.concurrent
    ensures var anchor := o.concurrent[key];
            && (IsConcurrent(o, family, key) <==> key in sits && anchor in sits && Touches(o, family, key, anchor))
            && (IsMerged(o, family, key) <==> IsConcurrent(o, family, key) && sits[key] * sits[anchor] != {})
  {
    hide Touches;
    var anchor := o.concurrent[key];
    assert o.truth[..|o.truth|] == o.truth;
    if IsConcurrent(o, family, key) {
      Meeting(sits, o, key, anchor);
    }
  }

  lemma Meeting(sits: map<string, set<int>>, o: Outcome, key: string, anchor: string)
    requires WellFormed(o) && ByIncident(sits, o, |o.truth|) && key in sits && anchor in sits
    ensures sits[key] * sits[anchor] != {} <==>
            exists i, j :: 0 <= i < |o.truth| && 0 <= j < |o.truth|
                           && o.truth[i] == key && o.truth[j] == anchor && o.pred[i] == o.pred[j]
  {
    var both := sits[key] * sits[anchor];
    if both != {} {
      var s := Member(both);
      var i :| 0 <= i < |o.truth| && o.truth[i] == key && o.pred[i] == s;
      var j :| 0 <= j < |o.truth| && o.truth[j] == anchor && o.pred[j] == s;
    }
    if i, j :| 0 <= i < |o.truth| && 0 <= j < |o.truth|
               && o.truth[i] == key && o.truth[j] == anchor && o.pred[i] == o.pred[j]
    {
      assert o.pred[i] in sits[key] && o.pred[j] in sits[anchor];
      assert o.pred[i] in both;
    }
  }

  // ---------- all streams ----------

  datatype Counts = Counts(clears: nat, compared: nat, respected: nat, pairs: nat, merged: nat)

  ghost function Pooled(outcomes: seq<Outcome>, family: Option<string>): Counts
    requires forall o :: o in outcomes ==> WellFormed(o)
  {
    if outcomes == [] then Counts(0, 0, 0, 0, 0)
    else
      var o, c := outcomes[|outcomes| - 1], Pooled(outcomes[..|outcomes| - 1], family);
      Counts(c.clears + |Marked(|o.truth|, IsClear(o, family))|,
             c.compared + |Marked(|o.compared|, IsNegative(o, family))|,
             c.respected + |Marked(|o.compared|, IsRespected(o, family))|,
             c.pairs + |ConcurrentIn(o, family, o.concurrent.Keys)|,
             c.merged + |MergedIn(o, family, o.concurrent.Keys)|)
  }

  method CountsOf(outcomes: seq<Outcome>, family: Option<string>) returns (c: Counts)
    requires forall o :: o in outcomes ==> WellFormed(o)
    ensures c == Pooled(outcomes, family)
  {
    hide Marked, IsClear, IsNegative, IsRespected, ConcurrentIn, MergedIn;
    c := Counts(0, 0, 0, 0, 0);
    for k := 0 to |outcomes|
      invariant c == Pooled(outcomes[..k], family)
    {
      var o := outcomes[k];
      assert o in outcomes && WellFormed(o);
      var clears := ClearsOf(o, family);
      var compared, respected := NegativesOf(o, family);
      var pairs, merged := ConcurrentOf(o, family);
      assert outcomes[..k + 1][..k] == outcomes[..k];
      c := Counts(c.clears + clears, c.compared + compared, c.respected + respected, c.pairs + pairs,
                  c.merged + merged);
    }
    assert outcomes[..|outcomes|] == outcomes;
  }

  /** Both rates are fractions of what they count. */
  lemma {:induction false} PooledBounds(outcomes: seq<Outcome>, family: Option<string>)
    requires forall o :: o in outcomes ==> WellFormed(o)
    ensures var c := Pooled(outcomes, family); c.respected <= c.compared && c.merged <= c.pairs
  {
    if outcomes != [] {
      var o := outcomes[|outcomes| - 1];
      assert o in outcomes;
      PooledBounds(outcomes[..|outcomes| - 1], family);
      Fewer(Marked(|o.compared|, IsRespected(o, family)), Marked(|o.compared|, IsNegative(o, family)));
      Fewer(MergedIn(o, family, o.concurrent.Keys), ConcurrentIn(o, family, o.concurrent.Keys));
    }
  }

  lemma {:induction false} Fewer<X>(a: set<X>, b: set<X>)
    requires a <= b
    ensures |a| <= |b|
  {
    assert b == a + (b - a);
  }
}
