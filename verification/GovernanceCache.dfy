/**
 The per-request cache of the two governance documents, `src/netcorenoc/api/governance_cache.py`. Stored
 rows never change; which of them are active does, between requests.
 */
module GovernanceCache {
  import opened Wrappers

  datatype Kind = Rbac | Scope

  datatype Policy = Policy(malformed: bool, reason: string, rules: string)

  /** The store's rows, and the two parsers. */
  datatype World = World(rows: map<int, string>, parse: (Kind, string) -> Policy)

  /** The `governance_active` pointers at one request. */
  datatype Active = Active(rbac: Option<int>, scope: Option<int>)

  function ActiveId(a: Active, kind: Kind): Option<int> {
    if kind == Rbac then a.rbac else a.scope
  }

  /** The parse of a pointer's document; `None` where nothing is configured. */
  function Meaning(w: World, kind: Kind, id: Option<int>): Option<Policy> {
    if id == None then None
    else Some(w.parse(kind, if id.value in w.rows then w.rows[id.value] else "<missing>"))
  }

  /** What changing a kind's pointer from one load to the next queues. */
  function Queued(w: World, kind: Kind, before: Option<int>, now: Option<int>): seq<(Kind, string)> {
    var meaning := Meaning(w, kind, now);
    if before != now && meaning != None && meaning.value.malformed then [(kind, meaning.value.reason)] else []
  }

  /** All that a sequence of loads queues: one entry per change to a malformed version. */
  function Fallbacks(w: World, loads: seq<Active>): seq<(Kind, string)> {
    if loads == [] then []
    else
      var now := loads[|loads| - 1];
      var before := if |loads| == 1 then Active(None, None) else loads[|loads| - 2];
      Fallbacks(w, loads[..|loads| - 1])
      + Queued(w, Rbac, before.rbac, now.rbac) + Queued(w, Scope, before.scope, now.scope)
  }

  class GovernancePolicies {
    const world: World
    var capabilityId: Option<int>
    var capability: Option<Policy>
    var scopeId: Option<int>
    var scope: Option<Policy>
    var pending: seq<(Kind, string)>

    /** What the cache holds after those loads. */
    ghost predicate After(loads: seq<Active>)
      reads this
    {
      var active := if loads == [] then Active(None, None) else loads[|loads| - 1];
      && capabilityId == active.rbac && capability == Meaning(world, Rbac, active.rbac)
      && scopeId == active.scope && scope == Meaning(world, Scope, active.scope)
      && pending == Fallbacks(world, loads)
    }

    constructor (world: World)
      ensures this.world == world && After([])
    {
      this.world := world;
      capabilityId, capability, scopeId, scope, pending := None, None, None, None, [];
    }

    /** `_load_kind`. Identifiers are positive, so an identifier that is present is never falsy. */
    method LoadKind(kind: Kind, id: Option<int>)
      requires id != None ==> id.value > 0
      requires capability == Meaning(world, Rbac, capabilityId) && scope == Meaning(world, Scope, scopeId)
      modifies this
      ensures id == old(if kind == Rbac then capabilityId else scopeId) ==>
                capability == old(capability) && scope == old(scope) && pending == old(pending)
      ensures id != old(if kind == Rbac then capabilityId else scopeId) ==>
                && (kind == Rbac ==> scope == old(scope)) && (kind == Scope ==> capability == old(capability))
                && var parsed := if kind == Rbac then capability else scope;
                   && (id == None ==> parsed == None && pending == old(pending))
                   && (id != None ==>
                         && parsed == Some(world.parse(kind, if id.value in world.rows then world.rows[id.value]
                                                             else "<missing>"))
                         && pending == old(pending)
                                       + if parsed.value.malformed then [(kind, parsed.value.reason)] else [])
      ensures capability == Meaning(world, Rbac, capabilityId) && scope == Meaning(world, Scope, scopeId)
      ensures capabilityId == if kind == Rbac then id else old(capabilityId)
      ensures scopeId == if kind == Scope then id else old(scopeId)
      ensures pending == old(pending) + Queued(world, kind, old(if kind == Rbac then capabilityId else scopeId), id)
    {
      var current := if kind == Rbac then capabilityId else scopeId;
      if id == current {
        return;
      }
      var document := "";
      if id != None {
        document := if id.value in world.rows then world.rows[id.value] else "<missing>";
      }
      var parsed := if id != None && id.value != 0 then Some(world.parse(kind, document)) else None;
      if kind == Rbac {
        capabilityId, capability := id, parsed;
      } else {
        scopeId, scope := id, parsed;
      }
      if parsed != None && parsed.value.malformed {
        pending := pending + [(kind, parsed.value.reason)];
      }
    }

    /** `load`: whatever changed since the last load, the cache now says what the active documents say. */
    method Load(active: Active, ghost loads: seq<Active>)
      requires After(loads)
      requires (active.rbac != None ==> active.rbac.value > 0) && (active.scope != None ==> active.scope.value > 0)
      modifies this
      ensures After(loads + [active]) && capabilityId == active.rbac && scopeId == active.scope
      ensures capability == None <==> active.rbac == None
      ensures scope == None <==> active.scope == None
      ensures active.rbac != None ==>
                var id := active.rbac.value;
                capability == Some(world.parse(Rbac, if id in world.rows then world.rows[id] else "<missing>"))
      ensures active.scope != None ==>
                var id := active.scope.value;
                scope == Some(world.parse(Scope, if id in world.rows then world.rows[id] else "<missing>"))
    {
      LoadKind(Rbac, active.rbac);
      LoadKind(Scope, active.scope);
      assert (loads + [active])[..|loads|] == loads;
    }
  }

  // ---------- what a run of loads queues ----------

  /** The pointer of a kind as the load before found it. */
  function Before(loads: seq<Active>, kind: Kind, i: nat): Option<int>
    requires i < |loads|
  {
    if i == 0 then None else ActiveId(loads[i - 1], kind)
  }

  /** The `i`-th load finds a pointer of the kind moved, and the document it now names malformed. */
  predicate Spoils(w: World, loads: seq<Active>, kind: Kind, i: nat) {
    && i < |loads| && ActiveId(loads[i], kind) != Before(loads, kind, i)
    && match Meaning(w, kind, ActiveId(loads[i], kind))
       case None => false
       case Some(policy) => policy.malformed
  }

  function OfKind(entries: seq<(Kind, string)>, kind: Kind): seq<string> {
    if entries == [] then []
    else
      var before, last := OfKind(entries[..|entries| - 1], kind), entries[|entries| - 1];
      if last.0 == kind then before + [last.1] else before
  }

  lemma {:induction false} OfKindJoined(a: seq<(Kind, string)>, b: seq<(Kind, string)>, kind: Kind)
    ensures OfKind(a + b, kind) == OfKind(a, kind) + OfKind(b, kind)
  {
    if b == [] {
      assert a + b == a;
    } else {
      assert (a + b)[..|a + b| - 1] == a + b[..|b| - 1];
      OfKindJoined(a, b[..|b| - 1], kind);
    }
  }

  /** These load indices, in order, are exactly those at which a fallback is due. */
  ghost predicate Moments(at: seq<nat>, w: World, loads: seq<Active>, kind: Kind) {
    && (forall i, j :: 0 <= i < j < |at| ==> at[i] < at[j])
    && forall i: nat :: i in at <==> Spoils(w, loads, kind, i)
  }

  /** The reason of the document a load finds active, where it has one. */
  function ReasonAt(w: World, loads: seq<Active>, kind: Kind, i: nat): string {
    if i < |loads| && Meaning(w, kind, ActiveId(loads[i], kind)) != None
    then Meaning(w, kind, ActiveId(loads[i], kind)).value.reason else ""
  }

  function Reasons(w: World, loads: seq<Active>, kind: Kind, at: seq<nat>): seq<string> {
    seq(|at|, k requires 0 <= k < |at| => ReasonAt(w, loads, kind, at[k]))
  }

  /** A fallback is queued exactly once per change to a malformed version: over any run of loads the
      queued reasons of a kind are, in order, those of the loads that find the kind's pointer moved and
      its document malformed. A bad policy that stays is not queued again; one that comes back is. */
  lemma {:induction false} OncePerChange(w: World, loads: seq<Active>, kind: Kind) returns (at: seq<nat>)
    ensures Moments(at, w, loads, kind)
    ensures OfKind(Fallbacks(w, loads), kind) == Reasons(w, loads, kind, at)
  {
    if loads == [] {
      at := [];
    } else {
      at := OncePerChange(w, loads[..|loads| - 1], kind);
      at := OneLoadMore(w, loads, kind, at);
    }
  }

  /** The moments of one more load, from those of the loads before it. */
  lemma OneLoadMore(w: World, loads: seq<Active>, kind: Kind, before: seq<nat>) returns (at: seq<nat>)
    requires loads != [] && Moments(before, w, loads[..|loads| - 1], kind)
    requires OfKind(Fallbacks(w, loads[..|loads| - 1]), kind) == Reasons(w, loads[..|loads| - 1], kind, before)
    ensures Moments(at, w, loads, kind)
    ensures OfKind(Fallbacks(w, loads), kind) == Reasons(w, loads, kind, at)
  {
    hide Fallbacks, OfKind, Spoils, ReasonAt, Reasons, Meaning;
    var rest, n := loads[..|loads| - 1], |loads| - 1;
    at := before;
    LastLoad(w, loads, kind);
    Later(w, rest, loads[n], kind, at);
    assert rest + [loads[n]] == loads;
    Beyond(w, loads, kind);
    if Spoils(w, loads, kind, n) {
      OneMoment(w, loads, kind, at);
      at := at + [n];
    }
  }

  lemma Beyond(w: World, loads: seq<Active>, kind: Kind)
    ensures forall i: nat :: i >= |loads| ==> !Spoils(w, loads, kind, i)
  {
  }

  /** What the last load adds to the entries of a kind. */
  lemma LastLoad(w: World, loads: seq<Active>, kind: Kind)
    requires loads != []
    ensures var n := |loads| - 1;
            OfKind(Fallbacks(w, loads), kind) ==
            OfKind(Fallbacks(w, loads[..n]), kind)
            + if Spoils(w, loads, kind, n) then [ReasonAt(w, loads, kind, n)] else []
  {
    hide Queued, OfKind, Spoils, ReasonAt, Meaning;
    var n := |loads| - 1;
    var now, before := loads[n], if n == 0 then Active(None, None) else loads[n - 1];
    var first, last := Queued(w, Rbac, before.rbac, now.rbac), Queued(w, Scope, before.scope, now.scope);
    OfKindJoined(Fallbacks(w, loads[..n]) + first, last, kind);
    OfKindJoined(Fallbacks(w, loads[..n]), first, kind);
    QueuedOne(w, loads, Rbac, kind);
    QueuedOne(w, loads, Scope, kind);
  }

  /** What one kind's pointer queues at the last load, seen from a kind. */
  lemma QueuedOne(w: World, loads: seq<Active>, own: Kind, kind: Kind)
    requires loads != []
    ensures var n := |loads| - 1;
            OfKind(Queued(w, own, Before(loads, own, n), ActiveId(loads[n], own)), kind) ==
            if own == kind && Spoils(w, loads, kind, n) then [ReasonAt(w, loads, kind, n)] else []
  {
    var n := |loads| - 1;
    OfKindOne(Queued(w, own, Before(loads, own, n), ActiveId(loads[n], own)), kind);
  }

  lemma OfKindOne(entries: seq<(Kind, string)>, kind: Kind)
    requires |entries| <= 1
    ensures OfKind(entries, kind) == if |entries| == 1 && entries[0].0 == kind then [entries[0].1] else []
  {
    if |entries| == 1 {
      assert entries[..0] == [];
      assert OfKind([], kind) == [];
    }
  }

  /** One more load leaves what was due before it. */
  lemma Later(w: World, loads: seq<Active>, now: Active, kind: Kind, at: seq<nat>)
    requires Moments(at, w, loads, kind)
    ensures forall i: nat :: i < |loads| ==> (i in at <==> Spoils(w, loads + [now], kind, i))
    ensures forall i :: i in at ==> i < |loads|
    ensures Reasons(w, loads + [now], kind, at) == Reasons(w, loads, kind, at)
  {
    forall i: nat | i < |loads|
      ensures Spoils(w, loads + [now], kind, i) == Spoils(w, loads, kind, i)
    {
      assert Before(loads + [now], kind, i) == Before(loads, kind, i);
    }
    assert forall k :: 0 <= k < |at| ==> at[k] in at;
  }

  lemma OneMoment(w: World, loads: seq<Active>, kind: Kind, at: seq<nat>)
    requires loads != [] && Spoils(w, loads, kind, |loads| - 1)
    requires forall i, j :: 0 <= i < j < |at| ==> at[i] < at[j]
    requires forall i: nat :: i < |loads| - 1 ==> (i in at <==> Spoils(w, loads, kind, i))
    requires forall i :: i in at ==> i < |loads| - 1
    ensures Moments(at + [|loads| - 1], w, loads, kind)
    ensures Reasons(w, loads, kind, at + [|loads| - 1])
            == Reasons(w, loads, kind, at) + [ReasonAt(w, loads, kind, |loads| - 1)]
  {
    assert forall k :: 0 <= k < |at| ==> at[k] in at;
  }
}
