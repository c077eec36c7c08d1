/**
 The organization tree of `src/netcorenoc/api/agent_view.py`: a flat map of agents and whom each reports
 to, as nested nodes. The map may hold any `reports_to`, cycles included.
 */
module OrgTree {
  import Sorting
  import opened Wrappers

  datatype Agent = Agent(tier: int, name: string, reportsTo: Option<int>)

  /** The agents by id; `order` beside it is the map's own iteration order. */
  type Staff = map<int, Agent>

  datatype Node = Node(id: int, reports: seq<Node>)

  /** Whom an agent reports to, if that is somebody. */
  function Boss(staff: Staff, id: int): Option<int> {
    if id in staff && staff[id].reportsTo != None && staff[id].reportsTo.value in staff
    then staff[id].reportsTo else None
  }

  // ---------- the order of siblings ----------

  predicate NameLeq(a: string, b: string) {
    if a == [] then true
    else if b == [] then false
    else if a[0] != b[0] then a[0] < b[0]
    else NameLeq(a[1..], b[1..])
  }

  /** `i` is where the names first differ, the first one lower. */
  ghost predicate LowerAt(a: string, b: string, i: int) {
    0 <= i < |a| && i < |b| && a[..i] == b[..i] && a[i] < b[i]
  }

  lemma LowerStart(a: string, b: string, i: int)
    requires LowerAt(a, b, i)
    ensures a[0] <= b[0] && (i > 0 ==> a[0] == b[0] && LowerAt(a[1..], b[1..], i - 1))
  {
    if i > 0 {
      assert a[0] == a[..i][0] && b[0] == b[..i][0];
      assert a[1..][..i - 1] == a[..i][1..] && b[1..][..i - 1] == b[..i][1..];
    }
  }

  lemma LowerOn(a: string, b: string, i: int)
    requires a != [] && b != [] && a[0] == b[0] && LowerAt(a[1..], b[1..], i)
    ensures LowerAt(a, b, i + 1)
  {
    assert a[..i + 1] == [a[0]] + a[1..][..i] && b[..i + 1] == [b[0]] + b[1..][..i];
  }

  /** Names compare as strings do: one is the start of the other, or they first differ in a smaller character. */
  lemma {:induction false} NamesTell(a: string, b: string)
    ensures NameLeq(a, b) <==> a <= b || exists i :: 0 <= i < |a| && i < |b| && a[..i] == b[..i] && a[i] < b[i]
  {
    NamesLower(a, b);
    if i :| LowerAt(a, b, i) {
      assert a[..i] == b[..i] && a[i] < b[i];
    }
    if i :| 0 <= i < |a| && i < |b| && a[..i] == b[..i] && a[i] < b[i] {
      assert LowerAt(a, b, i);
    }
  }

  lemma {:induction false} NamesLower(a: string, b: string)
    ensures NameLeq(a, b) <==> a <= b || exists i :: LowerAt(a, b, i)
  {
    if i :| LowerAt(a, b, i) {
      LowerStart(a, b, i);
    }
    if a != [] && b != [] {
      if a[0] == b[0] {
        NamesLower(a[1..], b[1..]);
        assert a == [a[0]] + a[1..] && b == [a[0]] + b[1..];
        if i :| LowerAt(a[1..], b[1..], i) {
          LowerOn(a, b, i);
        }
      } else if a[0] < b[0] {
        assert LowerAt(a, b, 0);
      }
    }
  }

  /** `(-tier, name)`, compared. */
  predicate Before(a: Agent, b: Agent) {
    a.tier > b.tier || (a.tier == b.tier && NameLeq(a.name, b.name))
  }

  lemma {:induction false} NamesTotal(a: string, b: string)
    ensures NameLeq(a, b) || NameLeq(b, a)
  {
    if a != [] && b != [] && a[0] == b[0] {
      NamesTotal(a[1..], b[1..]);
    }
  }

  lemma {:induction false} NamesTransitive(a: string, b: string, c: string)
    requires NameLeq(a, b) && NameLeq(b, c)
    ensures NameLeq(a, c)
  {
    if a != [] && b != [] && c != [] && a[0] == b[0] == c[0] {
      NamesTransitive(a[1..], b[1..], c[1..]);
    }
  }

  lemma BeforeTotal(a: Agent, b: Agent)
    ensures Before(a, b) || Before(b, a)
  {
    NamesTotal(a.name, b.name);
  }

  lemma BeforeTransitive(a: Agent, b: Agent, c: Agent)
    requires Before(a, b) && Before(b, c)
    ensures Before(a, c)
  {
    if a.tier == b.tier == c.tier {
      NamesTransitive(a.name, b.name, c.name);
    }
  }

  /** The order of siblings, over their ids. */
  function Seniority(staff: Staff): (int, int) -> bool {
    (k, l) => k in staff && l in staff && Before(staff[k], staff[l])
  }

  /** `sorted(kids, key=lambda a: (-a["tier"], a["name"]))`. */
  function Sort(staff: Staff, ids: seq<int>): (sorted: seq<int>)
    ensures multiset(sorted) == multiset(ids)
    ensures forall k :: k in sorted <==> k in ids
  {
    Sorting.Sort(ids, Seniority(staff))
  }

  /** The higher tier first, and by name within a tier. */
  ghost predicate InOrder(staff: Staff, ids: seq<int>) {
    && (forall k :: k in ids ==> k in staff)
    && forall i, j :: 0 <= i < j < |ids| ==>
         && ids[i] in ids && ids[j] in ids
         && var a, b := staff[ids[i]], staff[ids[j]];
            a.tier > b.tier || (a.tier == b.tier && NameLeq(a.name, b.name))
  }

  lemma SortInOrder(staff: Staff, ids: seq<int>)
    requires forall k :: k in ids ==> k in staff
    ensures InOrder(staff, Sort(staff, ids))
  {
    forall a, b | a in ids && b in ids
      ensures Seniority(staff)(a, b) || Seniority(staff)(b, a)
    {
      BeforeTotal(staff[a], staff[b]);
    }
    forall a, b, c | a in ids && b in ids && c in ids && Seniority(staff)(a, b) && Seniority(staff)(b, c)
      ensures Seniority(staff)(a, c)
    {
      BeforeTransitive(staff[a], staff[b], staff[c]);
    }
    Sorting.SortSorts(ids, Seniority(staff));
    var sorted := Sort(staff, ids);
    forall i, j | 0 <= i < j < |sorted|
      ensures sorted[i] in sorted && sorted[j] in sorted && Before(staff[sorted[i]], staff[sorted[j]])
    {
      assert Seniority(staff)(sorted[i], sorted[j]);
    }
  }

  // ---------- the tree ----------

  type Below = map<Option<int>, seq<int>>

  /** The reports of a boss, in the map's order. */
  function Reports(staff: Staff, order: seq<int>, boss: Option<int>): (reports: seq<int>)
    ensures forall k :: k in reports <==> k in order && Boss(staff, k) == boss
  {
    if order == [] then []
    else
      var last, before := order[|order| - 1], Reports(staff, order[..|order| - 1], boss);
      assert order == order[..|order| - 1] + [last];
      if Boss(staff, last) == boss then before + [last] else before
  }

  /** What the grouping loop leaves: under every boss with reports, those reports. */
  ghost predicate Filed(staff: Staff, order: seq<int>, below: Below) {
    && (forall boss :: boss in below ==> below[boss] == Reports(staff, order, boss))
    && (forall k :: k in order ==> Boss(staff, k) in below)
  }

  /** `setdefault(boss, []).append(agent)` for each agent. */
  method File(staff: Staff, order: seq<int>) returns (below: Below)
    requires forall k :: k in order ==> k in staff
    ensures Filed(staff, order, below)
  {
    below := map[];
    for i := 0 to |order|
      invariant Filed(staff, order[..i], below)
    {
      var id := order[i];
      var boss := Boss(staff, id);
      ghost var was := order[..i];
      assert order[..i + 1] == was + [id];
      assert (was + [id])[..|was + [id]| - 1] == was;
      NoReports(staff, was, boss, below);
      below := below[boss := (if boss in below then below[boss] else []) + [id]];
    }
    assert order[..|order|] == order;
  }

  lemma NoReports(staff: Staff, order: seq<int>, boss: Option<int>, below: Below)
    requires Filed(staff, order, below)
    ensures boss !in below ==> Reports(staff, order, boss) == []
  {
    var reports := Reports(staff, order, boss);
    if reports != [] {
      var k := reports[0];
      assert k in reports;
      assert Boss(staff, k) in below && Boss(staff, k) == boss;
    }
  }

  ghost predicate Known(staff: Staff, below: Below) {
    forall boss, k :: boss in below && k in below[boss] ==> k in staff
  }

  /** `node(agent, seen)`: an agent already on the way down gets no reports. */
  function Grow(staff: Staff, below: Below, id: int, seen: set<int>): Node
    requires id in staff && Known(staff, below)
    decreases |staff.Keys - seen|, 0, 0
  {
    var kids := if id in seen || Some(id) !in below then [] else below[Some(id)];
    if kids == [] then Node(id, [])
    else
      Smaller(staff.Keys - seen, staff.Keys - (seen + {id}), id);
      Node(id, GrowAll(staff, below, Sort(staff, kids), seen + {id}))
  }

  function GrowAll(staff: Staff, below: Below, ids: seq<int>, seen: set<int>): seq<Node>
    requires Known(staff, below) && forall k :: k in ids ==> k in staff
    decreases |staff.Keys - seen|, 1, |ids|
  {
    if ids == [] then []
    else GrowAll(staff, below, ids[..|ids| - 1], seen) + [Grow(staff, below, ids[|ids| - 1], seen)]
  }

  lemma Smaller(a: set<int>, b: set<int>, x: int)
    requires b == a - {x} && x in a
    ensures |b| < |a|
  {
  }

  // ---------- what the tree holds ----------

  function Ids(n: Node): seq<int> {
    [n.id] + AllIds(n.reports)
  }

  function AllIds(nodes: seq<Node>): seq<int> {
    if nodes == [] then [] else AllIds(nodes[..|nodes| - 1]) + Ids(nodes[|nodes| - 1])
  }

  /** The `n`-th boss up. */
  function Up(staff: Staff, id: int, n: nat): Option<int> {
    if n == 0 then Some(id)
    else
      var before := Up(staff, id, n - 1);
      if before == None then None else Boss(staff, before.value)
  }

  ghost predicate Under(staff: Staff, x: int, boss: int) {
    x in staff && exists n: nat :: Up(staff, x, n) == Some(boss)
  }

  /** The boss chain leaves the map. */
  ghost predicate Rooted(staff: Staff, id: int) {
    id in staff && exists n: nat :: Up(staff, id, n) == None
  }

  lemma {:induction false} UpAdds(staff: Staff, x: int, n: nat, m: nat)
    requires Up(staff, x, n) != None
    ensures Up(staff, x, n + m) == Up(staff, Up(staff, x, n).value, m)
  {
    if m > 0 {
      UpAdds(staff, x, n, m - 1);
    }
  }

  lemma {:induction false} UpStops(staff: Staff, x: int, n: nat, m: nat)
    requires n <= m && Up(staff, x, n) == None
    ensures Up(staff, x, m) == None
  {
    if n < m {
      UpStops(staff, x, n, m - 1);
    }
  }

  lemma {:induction false} UpForEver(staff: Staff, x: int, p: nat, n: nat)
    requires p > 0 && Up(staff, x, p) == Some(x)
    ensures Up(staff, x, n) != None
  {
    if n <= p {
      if Up(staff, x, n) == None {
        UpStops(staff, x, n, p);
      }
    } else {
      UpForEver(staff, x, p, n - p);
      UpAdds(staff, x, p, n - p);
    }
  }

  /** A rooted agent is not its own boss's boss's... boss. */
  lemma RootedNoCycle(staff: Staff, x: int, p: nat)
    requires Rooted(staff, x) && p > 0
    ensures Up(staff, x, p) != Some(x)
  {
    if Up(staff, x, p) == Some(x) {
      var n: nat :| Up(staff, x, n) == None;
      UpForEver(staff, x, p, n);
    }
  }

  lemma {:induction false} UpKnown(staff: Staff, x: int, n: nat)
    requires x in staff && Up(staff, x, n) != None
    ensures Up(staff, x, n).value in staff
  {
    if n > 0 {
      UpKnown(staff, x, n - 1);
    }
  }

  /** Rootedness spreads along the chain, both ways. */
  lemma RootedAlong(staff: Staff, x: int, boss: int)
    requires Under(staff, x, boss)
    ensures boss in staff && (Rooted(staff, x) <==> Rooted(staff, boss))
  {
    var n: nat :| Up(staff, x, n) == Some(boss);
    UpKnown(staff, x, n);
    if Rooted(staff, boss) {
      var m: nat :| Up(staff, boss, m) == None;
      UpAdds(staff, x, n, m);
    }
    if Rooted(staff, x) {
      var m: nat :| Up(staff, x, m) == None;
      if m < n {
        UpStops(staff, x, m, n);
      }
      UpAdds(staff, x, n, m - n);
    }
  }

  lemma UnderSelf(staff: Staff, x: int)
    requires x in staff
    ensures Under(staff, x, x)
  {
    assert Up(staff, x, 0) == Some(x);
  }

  /** Whoever is under an agent is that agent, or under one of its reports. */
  lemma UnderReport(staff: Staff, x: int, boss: int) returns (k: int)
    requires Under(staff, x, boss) && x != boss
    ensures k in staff && Boss(staff, k) == Some(boss) && Under(staff, x, k)
  {
    var n: nat :| Up(staff, x, n) == Some(boss);
    k := Up(staff, x, n - 1).value;
    assert Up(staff, x, n - 1) == Some(k);
  }

  lemma UnderBoss(staff: Staff, x: int, k: int, boss: int)
    requires Under(staff, x, k) && Boss(staff, k) == Some(boss)
    ensures Under(staff, x, boss)
  {
    var n: nat :| Up(staff, x, n) == Some(k);
    assert Up(staff, x, n + 1) == Some(boss);
  }

  /** A boss is under none of its own reports. */
  lemma BossAbove(staff: Staff, boss: int, k: int)
    requires Rooted(staff, boss) && Boss(staff, k) == Some(boss)
    ensures !Under(staff, boss, k)
  {
    if Under(staff, boss, k) {
      var n: nat :| Up(staff, boss, n) == Some(k);
      assert Up(staff, boss, n + 1) == Some(boss);
      RootedNoCycle(staff, boss, n + 1);
    }
  }

  /** Siblings have nobody in common. */
  lemma SiblingsApart(staff: Staff, x: int, k: int, l: int)
    requires Rooted(staff, k) && Rooted(staff, l) && k != l && Boss(staff, k) == Boss(staff, l)
    ensures !(Under(staff, x, k) && Under(staff, x, l))
  {
    if Under(staff, x, k) && Under(staff, x, l) {
      var n: nat :| Up(staff, x, n) == Some(k);
      var m: nat :| Up(staff, x, m) == Some(l);
      if n < m {
        UpAdds(staff, x, n, m - n);
        SiblingNotAbove(staff, k, l, m - n);
      } else if m < n {
        UpAdds(staff, x, m, n - m);
        SiblingNotAbove(staff, l, k, n - m);
      }
    }
  }

  lemma SiblingNotAbove(staff: Staff, k: int, l: int, p: nat)
    requires Rooted(staff, l) && Boss(staff, k) == Boss(staff, l) && p > 0
    ensures Up(staff, k, p) != Some(l)
  {
    assert Up(staff, k, 1) == Boss(staff, k) && Up(staff, l, 1) == Boss(staff, l);
    if Up(staff, k, p) == Some(l) {
      if Boss(staff, k) == None {
        UpStops(staff, k, 1, p);
      } else {
        UpAdds(staff, k, 1, p - 1);
        UpAdds(staff, l, 1, p - 1);
        RootedNoCycle(staff, l, p);
      }
    }
  }

  /** Every report stands under its own boss, and siblings stand in order. */
  ghost predicate Placed(staff: Staff, n: Node) {
    && n.id in staff
    && InOrder(staff, Heads(n.reports))
    && forall i :: 0 <= i < |n.reports| ==>
         && n.reports[i].id in staff && staff[n.reports[i].id].reportsTo == Some(n.id)
         && Placed(staff, n.reports[i])
  }

  function Heads(nodes: seq<Node>): seq<int> {
    seq(|nodes|, i requires 0 <= i < |nodes| => nodes[i].id)
  }

  ghost predicate Holds(staff: Staff, n: Node) {
    && Distinct(Ids(n)) && Placed(staff, n)
    && forall x :: x in Ids(n) <==> Under(staff, x, n.id)
  }

  ghost predicate AllHold(staff: Staff, nodes: seq<Node>, ids: seq<int>) {
    && Heads(nodes) == ids && Distinct(AllIds(nodes))
    && (forall i :: 0 <= i < |nodes| ==> Placed(staff, nodes[i]))
    && forall x :: x in AllIds(nodes) <==> exists k :: k in ids && Under(staff, x, k)
  }

  lemma {:induction false} ReportsDistinct(staff: Staff, order: seq<int>, boss: Option<int>)
    requires Distinct(order)
    ensures Distinct(Reports(staff, order, boss))
  {
    if order != [] {
      var rest, last := order[..|order| - 1], order[|order| - 1];
      assert order == rest + [last];
      DistinctRest(rest, last);
      ReportsDistinct(staff, rest, boss);
      if Boss(staff, last) == boss {
        DistinctMore(Reports(staff, rest, boss), last);
      }
    }
  }

  lemma DistinctRest(rest: seq<int>, last: int)
    requires Distinct(rest + [last])
    ensures Distinct(rest) && last !in rest
  {
    var all := rest + [last];
    assert all[|rest|] == last && forall i :: 0 <= i < |rest| ==> all[i] == rest[i];
  }

  lemma DistinctMore(rest: seq<int>, last: int)
    requires Distinct(rest) && last !in rest
    ensures Distinct(rest + [last])
  {
    assert forall i :: 0 <= i < |rest| ==> rest[i] in rest;
  }

  lemma KidsAre(staff: Staff, order: seq<int>, below: Below, boss: Option<int>)
    requires Filed(staff, order, below) && Distinct(order)
    ensures var kids := if boss in below then below[boss] else [];
            kids == Reports(staff, order, boss) && Distinct(kids)
  {
    ReportsDistinct(staff, order, boss);
    NoReports(staff, order, boss, below);
  }

  lemma DistinctSorted(staff: Staff, ids: seq<int>)
    requires Distinct(ids)
    ensures Distinct(Sort(staff, ids))
  {
    Sorting.SortDistinct(ids, Seniority(staff));
  }

  lemma DistinctJoined(a: seq<int>, b: seq<int>)
    requires Distinct(a) && Distinct(b) && forall x :: !(x in a && x in b)
    ensures Distinct(a + b)
  {
    assert forall i :: 0 <= i < |a| ==> a[i] in a;
    assert forall i :: 0 <= i < |b| ==> b[i] in b;
  }

  /** A subtree holds exactly the agents under its head, each once, if none of them is on the way down. */
  lemma {:induction false} GrowHolds(staff: Staff, order: seq<int>, below: Below, id: int, seen: set<int>)
    requires Filed(staff, order, below) && Known(staff, below) && Distinct(order)
    requires forall k :: k in order <==> k in staff
    requires Rooted(staff, id) && forall x :: x in seen ==> !Under(staff, x, id)
    ensures Grow(staff, below, id, seen).id == id && Holds(staff, Grow(staff, below, id, seen))
    decreases |staff.Keys - seen|, 0, 0
  {
    UnderSelf(staff, id);
    KidsAre(staff, order, below, Some(id));
    var kids := Reports(staff, order, Some(id));
    if kids == [] {
      Childless(staff, id);
    } else {
      var sorted, on := Sort(staff, kids), seen + {id};
      Smaller(staff.Keys - seen, staff.Keys - on, id);
      forall k | k in sorted
        ensures Rooted(staff, k) && forall x :: x in on ==> !Under(staff, x, k)
      {
        Descend(staff, k, id, seen);
      }
      DistinctSorted(staff, kids);
      GrowAllHolds(staff, order, below, sorted, on);
      SortInOrder(staff, kids);
      Headed(staff, order, id, sorted, GrowAll(staff, below, sorted, on));
    }
  }

  lemma Childless(staff: Staff, id: int)
    requires id in staff && forall k :: k in staff ==> Boss(staff, k) != Some(id)
    ensures Holds(staff, Node(id, []))
  {
    UnderSelf(staff, id);
    forall x | Under(staff, x, id)
      ensures x == id
    {
      if x != id {
        var k := UnderReport(staff, x, id);
      }
    }
    assert Ids(Node(id, [])) == [id];
  }

  lemma Descend(staff: Staff, k: int, id: int, seen: set<int>)
    requires k in staff && Boss(staff, k) == Some(id)
    requires Rooted(staff, id) && forall x :: x in seen ==> !Under(staff, x, id)
    ensures Rooted(staff, k) && forall x :: x in seen + {id} ==> !Under(staff, x, k)
  {
    UnderSelf(staff, k);
    UnderBoss(staff, k, k, id);
    RootedAlong(staff, k, id);
    BossAbove(staff, id, k);
    forall x | x in seen
      ensures !Under(staff, x, k)
    {
      if Under(staff, x, k) {
        UnderBoss(staff, x, k, id);
      }
    }
  }

  /** Putting the reports' subtrees under their boss. */
  lemma Headed(staff: Staff, order: seq<int>, id: int, sorted: seq<int>, nodes: seq<Node>)
    requires Rooted(staff, id) && InOrder(staff, sorted) && AllHold(staff, nodes, sorted)
    requires forall k :: k in order <==> k in staff
    requires forall k :: k in sorted <==> k in order && Boss(staff, k) == Some(id)
    ensures Holds(staff, Node(id, nodes))
  {
    UnderSelf(staff, id);
    var n := Node(id, nodes);
    forall x
      ensures x in Ids(n) <==> Under(staff, x, id)
    {
      if x in AllIds(nodes) {
        var k :| k in sorted && Under(staff, x, k);
        UnderBoss(staff, x, k, id);
      }
      if Under(staff, x, id) && x != id {
        var k := UnderReport(staff, x, id);
        assert k in sorted;
      }
    }
    if id in AllIds(nodes) {
      var k :| k in sorted && Under(staff, id, k);
      BossAbove(staff, id, k);
    }
    DistinctJoined([id], AllIds(nodes));
    forall i | 0 <= i < |nodes|
      ensures Boss(staff, nodes[i].id) == Some(id) && Placed(staff, nodes[i])
    {
      assert Heads(nodes)[i] == nodes[i].id;
      assert sorted[i] in sorted;
    }
  }

  lemma {:induction false} GrowAllHolds(staff: Staff, order: seq<int>, below: Below, ids: seq<int>, seen: set<int>)
    requires Filed(staff, order, below) && Known(staff, below) && Distinct(order) && Distinct(ids)
    requires forall k :: k in order <==> k in staff
    requires forall k :: k in ids ==> k in staff && Rooted(staff, k)
    requires forall k, x :: k in ids && x in seen ==> !Under(staff, x, k)
    requires forall k, l :: k in ids && l in ids ==> Boss(staff, k) == Boss(staff, l)
    ensures AllHold(staff, GrowAll(staff, below, ids, seen), ids)
    decreases |staff.Keys - seen|, 1, |ids|
  {
    if ids != [] {
      var rest, last := ids[..|ids| - 1], ids[|ids| - 1];
      assert ids == rest + [last];
      DistinctRest(rest, last);
      GrowAllHolds(staff, order, below, rest, seen);
      GrowHolds(staff, order, below, last, seen);
      OneMore(staff, GrowAll(staff, below, rest, seen), rest, Grow(staff, below, last, seen));
    }
  }

  lemma OneMore(staff: Staff, nodes: seq<Node>, ids: seq<int>, n: Node)
    requires AllHold(staff, nodes, ids) && Holds(staff, n) && n.id !in ids && Rooted(staff, n.id)
    requires forall k :: k in ids ==> Rooted(staff, k) && Boss(staff, k) == Boss(staff, n.id)
    ensures AllHold(staff, nodes + [n], ids + [n.id])
  {
    var all := nodes + [n];
    assert all[..|all| - 1] == nodes;
    assert Heads(all) == ids + [n.id];
    forall x
      ensures !(x in AllIds(nodes) && x in Ids(n))
    {
      if x in AllIds(nodes) && x in Ids(n) {
        var k :| k in ids && Under(staff, x, k);
        SiblingsApart(staff, x, k, n.id);
      }
    }
    DistinctJoined(AllIds(nodes), Ids(n));
    forall x
      ensures x in AllIds(all) <==> exists k :: k in ids + [n.id] && Under(staff, x, k)
    {
      if x in AllIds(nodes) {
        var k :| k in ids && Under(staff, x, k);
        assert k in ids + [n.id];
      } else if x in Ids(n) {
        assert n.id in ids + [n.id];
      }
    }
  }

  // ---------- the whole organization ----------

  /** What the organization tree promises: exactly the agents whose boss chain leaves the map, each once,
      the top ones reporting to nobody and everybody else standing under their own boss, in order. */
  ghost predicate Organized(staff: Staff, tops: seq<Node>) {
    && Distinct(AllIds(tops))
    && (forall x :: x in AllIds(tops) <==> exists path :: path != [] && path[0] == x && LeadsOut(staff, path))
    && (forall i :: 0 <= i < |tops| ==> LeadsOut(staff, [tops[i].id]) && Placed(staff, tops[i]))
    && InOrder(staff, Heads(tops))
  }

  /** A chain of agents, each reporting to the next, the last to nobody in the map. */
  ghost predicate LeadsOut(staff: Staff, path: seq<int>) {
    && path != [] && (forall i :: 0 <= i < |path| ==> path[i] in staff)
    && (forall i :: 0 <= i < |path| - 1 ==> staff[path[i]].reportsTo == Some(path[i + 1]))
    && var last := staff[path[|path| - 1]].reportsTo; last == None || last.value !in staff
  }

  lemma {:induction false} PathGoesUp(staff: Staff, path: seq<int>, n: nat)
    requires LeadsOut(staff, path) && n <= |path|
    ensures Up(staff, path[0], n) == if n < |path| then Some(path[n]) else None
  {
    if n > 0 {
      PathGoesUp(staff, path, n - 1);
    }
  }

  lemma {:induction false} PathOf(staff: Staff, x: int, n: nat) returns (path: seq<int>)
    requires x in staff && Up(staff, x, n) == None
    ensures path != [] && path[0] == x && LeadsOut(staff, path)
  {
    if Up(staff, x, n - 1) == None {
      path := PathOf(staff, x, n - 1);
    } else {
      path := seq(n, i requires 0 <= i < n => Climbed(staff, x, n, i));
    }
  }

  function Climbed(staff: Staff, x: int, n: nat, i: nat): (k: int)
    requires x in staff && i < n && Up(staff, x, n - 1) != None
    ensures Up(staff, x, i) == Some(k) && k in staff
  {
    if Up(staff, x, i) == None then
      UpStops(staff, x, i, n - 1);
      assert false; x
    else
      UpKnown(staff, x, i);
      Up(staff, x, i).value
  }

  /** Being rooted is having such a chain. */
  lemma RootedTells(staff: Staff, x: int)
    ensures Rooted(staff, x) <==> exists path :: path != [] && path[0] == x && LeadsOut(staff, path)
  {
    if Rooted(staff, x) {
      var n: nat :| Up(staff, x, n) == None;
      var path := PathOf(staff, x, n);
    }
    if path :| path != [] && path[0] == x && LeadsOut(staff, path) {
      PathGoesUp(staff, path, |path|);
    }
  }

  lemma {:induction false} TopOf(staff: Staff, x: int, n: nat) returns (top: int)
    requires x in staff && Up(staff, x, n) == None
    ensures Boss(staff, top) == None && Under(staff, x, top)
  {
    if Up(staff, x, n - 1) == None {
      top := TopOf(staff, x, n - 1);
    } else {
      top := Up(staff, x, n - 1).value;
      assert Up(staff, x, n - 1) == Some(top);
    }
  }

  lemma OrgTreeOrganized(staff: Staff, order: seq<int>, below: Below)
    requires Filed(staff, order, below) && Known(staff, below) && Distinct(order)
    requires forall k :: k in order <==> k in staff
    ensures Organized(staff, GrowAll(staff, below, Sort(staff, Reports(staff, order, None)), {}))
  {
    var kids := Reports(staff, order, None);
    var sorted := Sort(staff, kids);
    ReportsDistinct(staff, order, None);
    DistinctSorted(staff, kids);
    SortInOrder(staff, kids);
    forall k | k in sorted
      ensures Rooted(staff, k)
    {
      assert Up(staff, k, 1) == None;
    }
    GrowAllHolds(staff, order, below, sorted, {});
    AllRooted(staff, sorted, GrowAll(staff, below, sorted, {}));
  }

  lemma AllRooted(staff: Staff, sorted: seq<int>, tops: seq<Node>)
    requires AllHold(staff, tops, sorted) && InOrder(staff, sorted)
    requires forall k :: k in sorted <==> k in staff && Boss(staff, k) == None
    ensures Organized(staff, tops)
  {
    forall x
      ensures x in AllIds(tops) <==> exists path :: path != [] && path[0] == x && LeadsOut(staff, path)
    {
      RootedTells(staff, x);
      if x in AllIds(tops) {
        var k :| k in sorted && Under(staff, x, k);
        assert Up(staff, k, 1) == None;
        RootedAlong(staff, x, k);
      }
      if Rooted(staff, x) {
        var n: nat :| Up(staff, x, n) == None;
        var top := TopOf(staff, x, n);
        RootedAlong(staff, x, top);
        assert top in sorted;
      }
    }
    forall i | 0 <= i < |tops|
      ensures LeadsOut(staff, [tops[i].id])
    {
      assert Heads(tops)[i] == tops[i].id;
      assert sorted[i] in sorted;
    }
  }

  ghost predicate Acyclic(staff: Staff) {
    forall x, p: nat :: x in staff && p > 0 ==> Up(staff, x, p) != Some(x)
  }

  lemma LoopAbove(staff: Staff, x: int) returns (y: int, p: nat)
    requires x in staff && !Rooted(staff, x)
    ensures y in staff && p > 0 && Up(staff, y, p) == Some(y)
  {
    var n := |staff.Keys| + 1;
    forall i: nat
      ensures Up(staff, x, i) != None && Up(staff, x, i).value in staff
    {
      UpKnown(staff, x, i);
    }
    var xs := seq(n, i requires 0 <= i < n => Up(staff, x, i).value);
    Pigeonhole(xs, staff.Keys);
    var i, j :| 0 <= i < j < |xs| && xs[i] == xs[j];
    y, p := xs[i], j - i;
    UpAdds(staff, x, i, p);
  }

  /** Nobody is missing exactly when nobody is, at any remove, their own boss. */
  lemma EveryoneWhenAcyclic(staff: Staff, tops: seq<Node>)
    requires Organized(staff, tops)
    ensures (forall x :: x in staff ==> x in AllIds(tops)) <==> Acyclic(staff)
  {
    hide Up, Rooted, LeadsOut;
    if Acyclic(staff) {
      forall x | x in staff
        ensures x in AllIds(tops)
      {
        RootedTells(staff, x);
        if !Rooted(staff, x) {
          var y, p := LoopAbove(staff, x);
        }
      }
    }
    if forall x :: x in staff ==> x in AllIds(tops) {
      forall x, p: nat | x in staff && p > 0
        ensures Up(staff, x, p) != Some(x)
      {
        RootedTells(staff, x);
        RootedNoCycle(staff, x, p);
      }
    }
  }

  lemma FiledKnown(staff: Staff, order: seq<int>, below: Below)
    requires Filed(staff, order, below) && forall k :: k in order ==> k in staff
    ensures Known(staff, below)
  {
  }

  /** `org_tree`. */
  method OrgTree(staff: Staff, order: seq<int>) returns (tops: seq<Node>)
    requires Distinct(order) && forall k :: k in order <==> k in staff
    ensures Organized(staff, tops)
  {
    var below := File(staff, order);
    FiledKnown(staff, order, below);
    KidsAre(staff, order, below, None);
    var kids := if None in below then below[None] else [];
    tops := GrowAll(staff, below, Sort(staff, kids), {});
    OrgTreeOrganized(staff, order, below);
  }
}
