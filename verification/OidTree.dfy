/**
 The object identifier tree of `tools/trappack_build.py`: definitions `name ::= { parent arcs }`, resolved
 through their parents by a memoised, depth-limited recursion over what may be a cyclic graph.
 */
module OidTree {
  import opened Wrappers

  // ---------- definitions ----------

  /** A word between the braces: `parent(3)`, `3`, `parent`, or something that is none of these. */
  datatype Token = Both(name: string, number: string) | Number(number: string) | Name(name: string)
                 | Other(text: string)

  datatype Def = Def(head: string, arcs: seq<string>)

  /** A module and a name. */
  type Key = (string, string)

  /** `local` and `anywhere`. */
  datatype Book = Book(local: map<Key, Def>, anywhere: map<string, (string, Def)>)

  type Memo = map<Key, Option<string>>

  function Roots(): map<string, string> {
    map["ccitt" := "0", "zeroDotZero" := "0.0", "iso" := "1", "joint-iso-ccitt" := "2", "org" := "1.3",
        "dod" := "1.3.6", "internet" := "1.3.6.1", "directory" := "1.3.6.1.1", "mgmt" := "1.3.6.1.2",
        "mib-2" := "1.3.6.1.2.1", "transmission" := "1.3.6.1.2.1.10", "experimental" := "1.3.6.1.3",
        "private" := "1.3.6.1.4", "enterprises" := "1.3.6.1.4.1", "security" := "1.3.6.1.5",
        "snmpV2" := "1.3.6.1.6", "snmpDomains" := "1.3.6.1.6.1", "snmpProxys" := "1.3.6.1.6.2",
        "snmpModules" := "1.3.6.1.6.3"]
  }

  const LIMIT: nat := 64

  /** The arcs after the head, unless one of them is a bare name or unreadable. */
  function Arcs(parts: seq<Token>): Option<seq<string>> {
    if parts == [] then Some([])
    else
      var before := Arcs(parts[..|parts| - 1]);
      var last := parts[|parts| - 1];
      if before == None || last.Name? || last.Other? then None else Some(before.value + [last.number])
  }

  /** What the first word alone defines. */
  function First(head: Token): Def {
    match head
    case Both(name, number) => Def(name, [number])
    case Number(number) => Def("", [number])
    case Name(name) => Def(name, [])
    case Other(text) => Def(text, [])
  }

  /** What an assignment's value defines, if anything. */
  function Parsed(parts: seq<Token>): Option<Def> {
    if parts == [] then None
    else
      var rest := Arcs(parts[1..]);
      if rest == None then None
      else
        var first := First(parts[0]);
        Some(Def(first.head, first.arcs + rest.value))
  }

  /** What an assignment defines, told from its words: something, when there are words and every later one gives
      a number; then its head is what the first word names, nothing if that is a number, and its arcs are the
      numbers of all the words that give one, in order. */
  lemma {:induction false} ParsedTells(parts: seq<Token>)
    ensures Parsed(parts) != None <==>
            parts != [] && forall i :: 1 <= i < |parts| ==> parts[i].Both? || parts[i].Number?
    ensures Parsed(parts) != None ==>
              var d, first := Parsed(parts).value, parts[0];
              var own := if first.Both? || first.Number? then 1 else 0;
              && d.head == (if first.Both? || first.Name? then first.name else if first.Number? then "" else first.text)
              && |d.arcs| == own + |parts| - 1
              && (own == 1 ==> d.arcs[0] == first.number)
              && forall i :: 1 <= i < |parts| ==> d.arcs[own + i - 1] == parts[i].number
  {
    if parts != [] {
      ArcsTell(parts[1..]);
      assert forall i :: 1 <= i < |parts| ==> parts[1..][i - 1] == parts[i];
    }
  }

  lemma {:induction false} ArcsTell(parts: seq<Token>)
    ensures Arcs(parts) != None <==> forall i :: 0 <= i < |parts| ==> parts[i].Both? || parts[i].Number?
    ensures Arcs(parts) != None ==>
              |Arcs(parts).value| == |parts| && forall i :: 0 <= i < |parts| ==> Arcs(parts).value[i] == parts[i].number
  {
    if parts != [] {
      var rest, last := parts[..|parts| - 1], parts[|parts| - 1];
      assert parts == rest + [last];
      ArcsTell(rest);
      assert forall i :: 0 <= i < |rest| ==> rest[i] == parts[i];
    }
  }

  function Added(b: Book, module_: string, name: string, parts: seq<Token>): Book {
    var parsed := Parsed(parts);
    if parsed == None then b
    else Book(b.local[(module_, name) := parsed.value],
              if name in b.anywhere then b.anywhere else b.anywhere[name := (module_, parsed.value)])
  }

  // ---------- resolving ----------

  /** The definition of a key, with the module it is read in: the module's own, or else the first one
      of that name anywhere. */
  function Lookup(b: Book, key: Key): Option<(string, Def)> {
    if key in b.local then Some((key.0, b.local[key])) else Get(b.anywhere, key.1)
  }

  /** `".".join(x for x in (base, *arcs) if x)`. */
  function Join(base: string, arcs: seq<string>): string {
    if arcs == [] then base
    else
      var before, last := Join(base, arcs[..|arcs| - 1]), arcs[|arcs| - 1];
      if last == "" then before else if before == "" then last else before + "." + last
  }

  /** The numbers of an object identifier, read off its text. */
  function Read(oid: string): (numbers: seq<string>)
    ensures numbers != []
  {
    if oid == "" then [""]
    else
      var rest := Read(oid[1..]);
      if oid[0] == '.' then [""] + rest else [[oid[0]] + rest[0]] + rest[1..]
  }

  lemma {:induction false} ReadOne(arc: string)
    requires '.' !in arc
    ensures Read(arc) == [arc]
  {
    if arc != "" {
      assert forall c :: c in arc[1..] ==> c in arc;
      ReadOne(arc[1..]);
      assert arc[0] in arc && [arc[0]] + arc[1..] == arc;
    }
  }

  lemma {:induction false} ReadDot(base: string, arc: string)
    requires '.' !in arc
    ensures Read(base + "." + arc) == Read(base) + [arc]
  {
    if base == "" {
      assert (base + "." + arc)[1..] == arc;
      ReadOne(arc);
    } else {
      assert (base + "." + arc)[1..] == base[1..] + "." + arc;
      ReadDot(base[1..], arc);
    }
  }

  /** What is joined reads back: the numbers of the base, if there is one, and then the arcs. */
  lemma {:induction false} JoinReads(base: string, arcs: seq<string>)
    requires forall arc :: arc in arcs ==> arc != "" && '.' !in arc
    ensures base != "" ==> Join(base, arcs) != "" && Read(Join(base, arcs)) == Read(base) + arcs
    ensures base == "" && arcs != [] ==> Join(base, arcs) != "" && Read(Join(base, arcs)) == arcs
  {
    if arcs != [] {
      var rest, last := arcs[..|arcs| - 1], arcs[|arcs| - 1];
      assert arcs == rest + [last];
      assert last in arcs && forall arc :: arc in rest ==> arc in arcs;
      JoinReads(base, rest);
      ReadOne(last);
      ReadDot(Join(base, rest), last);
    }
  }

  /** The well-known names hang together, each the one above it and an arc more: the three at the top and the
      way down to the internet. */
  lemma TopRoots()
    ensures var r := Roots(); r["ccitt"] == "0" && r["iso"] == "1" && r["joint-iso-ccitt"] == "2"
    ensures var r := Roots(); r["zeroDotZero"] == r["ccitt"] + ".0"
    ensures var r := Roots(); r["org"] == r["iso"] + ".3" && r["dod"] == r["org"] + ".6"
    ensures var r := Roots(); r["internet"] == r["dod"] + ".1"
  {
  }

  /** The six below the internet. */
  lemma InternetRoots()
    ensures var r := Roots(); r["directory"] == r["internet"] + ".1" && r["mgmt"] == r["internet"] + ".2"
    ensures var r := Roots(); r["experimental"] == r["internet"] + ".3" && r["private"] == r["internet"] + ".4"
    ensures var r := Roots(); r["security"] == r["internet"] + ".5" && r["snmpV2"] == r["internet"] + ".6"
  {
  }

  /** Those below one of these. */
  lemma InnerRoots()
    ensures var r := Roots(); r["mib-2"] == r["mgmt"] + ".1" && r["transmission"] == r["mib-2"] + ".10"
    ensures var r := Roots(); r["enterprises"] == r["private"] + ".1" && r["snmpDomains"] == r["snmpV2"] + ".1"
    ensures var r := Roots(); r["snmpProxys"] == r["snmpV2"] + ".2" && r["snmpModules"] == r["snmpV2"] + ".3"
  {
  }

  /** `oid`, with the memo it leaves. */
  function Resolve(b: Book, memo: Memo, key: Key, depth: nat): (Option<string>, Memo)
    decreases LIMIT + 1 - depth
  {
    if key.1 in Roots() then (Some(Roots()[key.1]), memo)
    else if key in memo then (memo[key], memo)
    else if depth > LIMIT then (None, memo)
    else
      match Lookup(b, key)
      case None => (None, memo)
      case Some(hit) =>
        var (base, after) := if hit.1.head == "" then (Some(""), memo)
                             else Resolve(b, memo, (hit.0, hit.1.head), depth + 1);
        var out := if base == None then None else Some(Join(base.value, hit.1.arcs));
        (out, after[key := out])
  }

  // ---------- what a name means ----------

  /** Following a chain through at most so many definitions. */
  datatype Reply = Known(oid: string, length: nat) | Undefined | Unfinished

  function Chase(b: Book, key: Key, n: nat): Reply
    decreases n
  {
    if key.1 in Roots() then Known(Roots()[key.1], 0)
    else
      match Lookup(b, key)
      case None => Undefined
      case Some(hit) =>
        if n == 0 then Unfinished
        else if hit.1.head == "" then Known(Join("", hit.1.arcs), 1)
        else
          match Chase(b, (hit.0, hit.1.head), n - 1)
          case Known(oid, length) => Known(Join(oid, hit.1.arcs), length + 1)
          case other => other
  }

  /** A key resolves: some number of definitions ends its chain in a root or a numeric head. */
  ghost predicate Resolvable(b: Book, key: Key) {
    exists n: nat :: Chase(b, key, n).Known?
  }

  /** The object identifier a key means - the chain followed with no memo and no limit - and the number
      of definitions it goes through. */
  ghost function Meaning(b: Book, key: Key): Reply
    requires Resolvable(b, key)
  {
    var n: nat :| Chase(b, key, n).Known?;
    Chase(b, key, n)
  }

  ghost function Truth(b: Book, key: Key): Option<string> {
    if Resolvable(b, key) then
      MeaningIs(b, key);
      Some(Meaning(b, key).oid)
    else None
  }

  lemma {:induction false} ChaseOn(b: Book, key: Key, n: nat, m: nat)
    requires n <= m && Chase(b, key, n) != Unfinished
    ensures Chase(b, key, m) == Chase(b, key, n)
    decreases n
  {
    hide Roots, Join;
    if key.1 !in Roots() && Lookup(b, key) != None {
      var hit := Lookup(b, key).value;
      if hit.1.head != "" {
        ChaseOn(b, (hit.0, hit.1.head), n - 1, m - 1);
      }
    }
  }

  lemma MeaningIs(b: Book, key: Key)
    requires Resolvable(b, key)
    ensures Meaning(b, key).Known?
    ensures forall n: nat :: Chase(b, key, n).Known? ==> Chase(b, key, n) == Meaning(b, key)
  {
    var k: nat :| Chase(b, key, k).Known? && Chase(b, key, k) == Meaning(b, key);
    forall n: nat | Chase(b, key, n).Known?
      ensures Chase(b, key, n) == Meaning(b, key)
    {
      if n <= k {
        ChaseOn(b, key, n, k);
      } else {
        ChaseOn(b, key, k, n);
      }
    }
  }

  /** One definition further along. */
  function Next(b: Book, key: Key): Option<Key> {
    if key.1 in Roots() then None
    else
      match Lookup(b, key)
      case None => None
      case Some(hit) => if hit.1.head == "" then None else Some((hit.0, hit.1.head))
  }

  /** A key means what the key its definition refers to means, with its own arcs appended. */
  lemma MeaningSteps(b: Book, key: Key)
    requires Next(b, key) != None
    ensures Resolvable(b, key) <==> Resolvable(b, Next(b, key).value)
    ensures Resolvable(b, key) ==>
              var up := Meaning(b, Next(b, key).value);
              && up.Known?
              && Meaning(b, key) == Known(Join(up.oid, Lookup(b, key).value.1.arcs), up.length + 1)
  {
    hide Roots, Join;
    var next := Next(b, key).value;
    if n: nat :| Chase(b, key, n).Known? {
      assert Chase(b, next, n - 1).Known?;
      MeaningIs(b, key);
      MeaningIs(b, next);
    }
    if n: nat :| Chase(b, next, n).Known? {
      assert Chase(b, key, n + 1).Known?;
      MeaningIs(b, key);
      MeaningIs(b, next);
    }
  }

  /** Number by number: a key means what the key above it means, and then its own arcs. */
  lemma MeaningReads(b: Book, key: Key)
    requires Next(b, key) != None && Resolvable(b, key)
    requires forall arc :: arc in Lookup(b, key).value.1.arcs ==> arc != "" && '.' !in arc
    ensures Resolvable(b, Next(b, key).value)
    ensures Meaning(b, key).Known? && Meaning(b, Next(b, key).value).Known?
    ensures Meaning(b, Next(b, key).value).oid != "" ==>
              Read(Meaning(b, key).oid) == Read(Meaning(b, Next(b, key).value).oid) + Lookup(b, key).value.1.arcs
  {
    hide Resolvable, Meaning, Read;
    MeaningSteps(b, key);
    JoinReads(Meaning(b, Next(b, key).value).oid, Lookup(b, key).value.1.arcs);
  }

  /** A chain that is already at its end. */
  lemma MeaningEnds(b: Book, key: Key)
    requires Next(b, key) == None
    ensures Resolvable(b, key) <==> key.1 in Roots() || Lookup(b, key) != None
    ensures Resolvable(b, key) ==> Meaning(b, key) == Chase(b, key, 1) && Meaning(b, key).length <= 1
  {
    hide Roots, Join;
    if key.1 in Roots() || Lookup(b, key) != None {
      assert Chase(b, key, 1).Known?;
      MeaningIs(b, key);
    } else {
      assert forall n: nat :: Chase(b, key, n) == Undefined;
    }
  }

  // ---------- the memo ----------

  /** Every remembered answer is the true one. */
  ghost predicate Sound(b: Book, memo: Memo) {
    forall key :: key in memo ==> memo[key] == Truth(b, key)
  }

  /** The definitions left before the limit cover the chain. */
  ghost predicate Within(b: Book, key: Key, depth: nat) {
    Resolvable(b, key) ==> (MeaningIs(b, key); Meaning(b, key).length + depth <= LIMIT + 1)
  }

  lemma {:induction false} ResolveTells(b: Book, memo: Memo, key: Key, depth: nat)
    requires Sound(b, memo) && depth <= LIMIT + 1 && Within(b, key, depth)
    ensures Resolve(b, memo, key, depth).0 == Truth(b, key)
    ensures Sound(b, Resolve(b, memo, key, depth).1)
    decreases LIMIT + 1 - depth
  {
    hide Roots, Join, Meaning, Resolvable;
    if Next(b, key) == None {
      MeaningEnds(b, key);
    } else {
      MeaningSteps(b, key);
      if depth <= LIMIT && key !in memo {
        ResolveTells(b, memo, Next(b, key).value, depth + 1);
      }
    }
  }

  /** The answers to a sequence of calls, and the memo they leave. */
  function Asked(b: Book, calls: seq<Key>): (seq<Option<string>>, Memo) {
    if calls == [] then ([], map[])
    else
      var (answers, memo) := Asked(b, calls[..|calls| - 1]);
      var (answer, after) := Resolve(b, memo, calls[|calls| - 1], 0);
      (answers + [answer], after)
  }

  ghost predicate Truthful(b: Book, calls: seq<Key>) {
    && |Asked(b, calls).0| == |calls|
    && forall i :: 0 <= i < |calls| ==> Asked(b, calls).0[i] == Truth(b, calls[i])
  }

  /** No chain that resolves goes through more than 65 definitions. */
  ghost predicate Shallow(b: Book) {
    forall key :: Within(b, key, 0)
  }

  lemma {:induction false} ShallowTells(b: Book, calls: seq<Key>)
    requires Shallow(b)
    ensures Truthful(b, calls) && Sound(b, Asked(b, calls).1)
  {
    hide Resolve, Truth, Within;
    if calls != [] {
      var rest, key := calls[..|calls| - 1], calls[|calls| - 1];
      ShallowTells(b, rest);
      assert Within(b, key, 0);
      ResolveTells(b, Asked(b, rest).1, key, 0);
    }
  }

  /** Past the limit the answer is `None`, and is remembered for every key on the way. */
  lemma {:induction false} TooDeep(b: Book, key: Key, depth: nat)
    requires depth <= LIMIT + 1 && !Within(b, key, depth)
    ensures Resolve(b, map[], key, depth).0 == None
    ensures depth <= LIMIT ==> key in Resolve(b, map[], key, depth).1
    ensures forall k :: k in Resolve(b, map[], key, depth).1 ==> Resolve(b, map[], key, depth).1[k] == None
    ensures depth < LIMIT ==> Next(b, key) != None && Next(b, key).value in Resolve(b, map[], key, depth).1
    decreases LIMIT + 1 - depth
  {
    hide Roots, Join;
    MeaningIs(b, key);
    if Next(b, key) == None {
      MeaningEnds(b, key);
    } else {
      MeaningSteps(b, key);
      if depth <= LIMIT {
        TooDeep(b, Next(b, key).value, depth + 1);
      }
    }
  }

  /** The memoised, depth-limited answers are the true ones in every sequence of calls exactly when no
      chain that resolves goes through more than 65 definitions: 64 below the first. */
  lemma TruthfulExactlyWhenShallow(b: Book)
    ensures (forall calls :: Truthful(b, calls)) <==> Shallow(b)
  {
    if Shallow(b) {
      forall calls
        ensures Truthful(b, calls)
      {
        ShallowTells(b, calls);
      }
    } else {
      var key: Key :| !Within(b, key, 0);
      TooDeep(b, key, 0);
      assert Asked(b, [key]).0 == [None] by {
        assert Asked(b, [key][..0]) == ([], map[]);
      }
      assert !Truthful(b, [key]);
    }
  }

  lemma RootMeans(b: Book, key: Key)
    ensures key.1 in Roots() ==> Resolvable(b, key) && Meaning(b, key) == Known(Roots()[key.1], 0)
  {
    hide Roots;
    if key.1 in Roots() {
      assert Chase(b, key, 0).Known?;
      MeaningIs(b, key);
    }
  }

  lemma OneCall(b: Book, key: Key)
    ensures Asked(b, [key]) == ([Resolve(b, map[], key, 0).0], Resolve(b, map[], key, 0).1)
  {
    assert [key][..0] == [];
    assert Asked(b, []) == ([], map[]);
    assert [] + [Resolve(b, map[], key, 0).0] == [Resolve(b, map[], key, 0).0];
  }

  lemma TwoCalls(b: Book, key: Key, next: Key)
    ensures var memo := Resolve(b, map[], key, 0).1;
            Asked(b, [key, next]).0 == [Resolve(b, map[], key, 0).0, Resolve(b, memo, next, 0).0]
  {
    OneCall(b, key);
    assert [key, next][..1] == [key];
  }

  /** One definition too many, and the answers depend on the order of the calls: asked first, a key is
      found; asked after the one that is defined through it, the memo says it is not. */
  lemma OrderMatters(b: Book, key: Key)
    requires Resolvable(b, key) && Meaning(b, key) == Known(Meaning(b, key).oid, LIMIT + 2)
    ensures var next := Next(b, key);
            && next != None
            && Asked(b, [next.value]).0 == [Truth(b, next.value)] && Truth(b, next.value) != None
            && Asked(b, [key, next.value]).0 == [None, None]
  {
    TooDeep(b, key, 0);
    MeaningIs(b, key);
    var next := Next(b, key).value;
    MeaningSteps(b, key);
    OneCall(b, next);
    TwoCalls(b, key, next);
    ResolveTells(b, map[], next, 0);
    var memo := Resolve(b, map[], key, 0).1;
    RootMeans(b, next);
    assert Resolve(b, memo, next, 0).0 == memo[next] == None;
  }

  // ---------- a ladder of definitions ----------

  /** `x1`, `x2`, ... as names no root has: as many `x` as their number. */
  function Rung(i: nat): string {
    seq(i, _ => 'x')
  }

  /** A module that defines each rung from the one below it, the first by a number. */
  function Ladder(n: nat): Book {
    if n == 0 then Book(map[], map[])
    else if n == 1 then Added(Ladder(0), "M", Rung(1), [Number("1")])
    else Added(Ladder(n - 1), "M", Rung(n), [Name(Rung(n - 1)), Number("1")])
  }

  lemma RungNoRoot(i: nat)
    requires i >= 1
    ensures Rung(i) !in Roots()
  {
    assert Rung(i)[0] == 'x';
  }

  lemma OneArc(number: string)
    ensures Arcs([Number(number)]) == Some([number])
  {
    assert [Number(number)][..0] == [];
    assert Arcs([]) == Some([]);
    assert [] + [number] == [number];
  }

  lemma {:induction false} LadderDefines(n: nat, i: nat)
    requires 1 <= i <= n
    ensures ("M", Rung(i)) in Ladder(n).local
    ensures Ladder(n).local[("M", Rung(i))] == if i == 1 then Def("", ["1"]) else Def(Rung(i - 1), ["1"])
  {
    var parts := if n == 1 then [Number("1")] else [Name(Rung(n - 1)), Number("1")];
    assert parts[1..] == if n == 1 then [] else [Number("1")];
    OneArc("1");
    if i < n {
      LadderDefines(n - 1, i);
      assert |Rung(i)| != |Rung(n)|;
    }
  }

  lemma {:induction false} LadderMeans(n: nat, i: nat)
    requires 1 <= i <= n
    ensures Chase(Ladder(n), ("M", Rung(i)), i).Known? && Chase(Ladder(n), ("M", Rung(i)), i).length == i
    decreases i
  {
    hide Roots, Join, Ladder;
    LadderDefines(n, i);
    RungNoRoot(i);
    if i > 1 {
      LadderMeans(n, i - 1);
      assert Rung(i - 1) != "";
    }
  }

  /** 66 definitions in a row already break the promise: the 65th is found when asked for alone, and not
      after the 66th. */
  lemma LadderTooTall()
    ensures var b := Ladder(66);
            && !Shallow(b)
            && Asked(b, [("M", Rung(65))]).0 == [Truth(b, ("M", Rung(65)))]
            && Truth(b, ("M", Rung(65))) != None
            && Asked(b, [("M", Rung(66)), ("M", Rung(65))]).0 == [None, None]
  {
    hide Ladder, Chase, Asked, Truth;
    var b, key := Ladder(66), ("M", Rung(66));
    LadderMeans(66, 66);
    LadderDefines(66, 66);
    RungNoRoot(66);
    MeaningIs(b, key);
    assert Next(b, key) == Some(("M", Rung(65)));
    OrderMatters(b, key);
    assert !Within(b, key, 0);
  }

  // ---------- names without a meaning ----------

  /** The `i`-th key of a chain. */
  function Along(b: Book, key: Key, i: nat): Option<Key> {
    if i == 0 then Some(key)
    else
      var before := Along(b, key, i - 1);
      if before == None then None else Next(b, before.value)
  }

  ghost predicate Cyclic(b: Book, key: Key) {
    exists i: nat, j: nat :: i < j && Along(b, key, i) != None && Along(b, key, i) == Along(b, key, j)
  }

  ghost predicate Endless(b: Book, key: Key) {
    forall n: nat :: Chase(b, key, n) == Unfinished
  }

  lemma {:induction false} ChaseAlong(b: Book, key: Key, i: nat, n: nat)
    requires i <= n && Along(b, key, i) != None
    ensures Chase(b, key, n) == Unfinished <==> Chase(b, Along(b, key, i).value, n - i) == Unfinished
  {
    hide Roots, Join;
    if i > 0 {
      ChaseAlong(b, key, i - 1, n);
    }
  }

  lemma {:induction false} AlongAdds(b: Book, key: Key, i: nat, p: nat)
    requires Along(b, key, i) != None
    ensures Along(b, key, i + p) == Along(b, Along(b, key, i).value, p)
  {
    if p > 0 {
      AlongAdds(b, key, i, p - 1);
    }
  }

  lemma {:induction false} AlongBefore(b: Book, key: Key, i: nat, j: nat)
    requires i < j && Along(b, key, j) != None
    ensures Along(b, key, i) != None && Next(b, Along(b, key, i).value) != None
  {
    if i + 1 < j {
      AlongBefore(b, key, i, j - 1);
    }
  }

  /** Coming back to a key, a chain goes round for ever. */
  lemma {:induction false} Around(b: Book, key: Key, p: nat, n: nat)
    requires p > 0 && Along(b, key, p) == Some(key)
    ensures Chase(b, key, n) == Unfinished
    decreases n
  {
    hide Roots, Join;
    if n < p {
      AlongBefore(b, key, n, p);
      ChaseAlong(b, key, n, n);
    } else {
      Around(b, key, p, n - p);
      ChaseAlong(b, key, p, n);
    }
  }

  lemma Onto(b: Book, key: Key, i: nat, p: nat, n: nat)
    requires p > 0 && Along(b, key, i) != None && Along(b, Along(b, key, i).value, p) == Along(b, key, i)
    ensures Chase(b, key, n) == Unfinished
  {
    hide Chase;
    Around(b, Along(b, key, i).value, p, n);
    ChaseAlong(b, key, i, i + n);
    if Chase(b, key, n) != Unfinished {
      ChaseOn(b, key, n, i + n);
    }
  }

  lemma CyclicEndless(b: Book, key: Key)
    requires Cyclic(b, key)
    ensures Endless(b, key)
  {
    hide Chase, Along;
    var i: nat, j: nat :| i < j && Along(b, key, i) != None && Along(b, key, i) == Along(b, key, j);
    AlongAdds(b, key, i, j - i);
    forall n: nat
      ensures Chase(b, key, n) == Unfinished
    {
      Onto(b, key, i, j - i, n);
    }
  }

  /** The keys some definition refers to. */
  ghost function Targets(b: Book): set<Key> {
    (set k | k in b.local :: (k.0, b.local[k].head))
    + (set name | name in b.anywhere :: (b.anywhere[name].0, b.anywhere[name].1.head))
  }

  lemma NextTargets(b: Book, key: Key)
    ensures Next(b, key) != None ==> Next(b, key).value in Targets(b)
  {
    hide Roots;
  }

  lemma {:induction false} EndlessGoesOn(b: Book, key: Key, i: nat)
    requires Endless(b, key)
    ensures Along(b, key, i) != None && (i > 0 ==> Along(b, key, i).value in Targets(b))
  {
    hide Roots, Join, Targets;
    if i > 0 {
      EndlessGoesOn(b, key, i - 1);
      ChaseAlong(b, key, i - 1, i);
      NextTargets(b, Along(b, key, i - 1).value);
    }
  }

  lemma EndlessCyclic(b: Book, key: Key)
    requires Endless(b, key)
    ensures Cyclic(b, key)
  {
    hide Endless, Targets, Along;
    var n := |Targets(b)| + 1;
    forall i | 0 <= i <= n
      ensures Along(b, key, i) != None && (i > 0 ==> Along(b, key, i).value in Targets(b))
    {
      EndlessGoesOn(b, key, i);
    }
    var xs := seq(n, i requires 0 <= i < n => Along(b, key, i + 1).value);
    Pigeonhole(xs, Targets(b));
    var i, j :| 0 <= i < j < |xs| && xs[i] == xs[j];
    assert Along(b, key, i + 1) == Along(b, key, j + 1);
  }

  ghost predicate RunsOut(b: Book, key: Key) {
    exists n: nat :: Chase(b, key, n) == Undefined
  }

  lemma RunsOutUnresolvable(b: Book, key: Key)
    requires RunsOut(b, key)
    ensures !Resolvable(b, key)
  {
    var n: nat :| Chase(b, key, n) == Undefined;
    forall m: nat
      ensures !Chase(b, key, m).Known?
    {
      if n <= m {
        ChaseOn(b, key, n, m);
      } else if Chase(b, key, m) != Unfinished {
        ChaseOn(b, key, m, n);
      }
    }
  }

  /** A name has no meaning exactly when its chain runs into a name nobody defines, or comes back to a key
      it has already been through. */
  lemma NoneMeansUndefinedOrCyclic(b: Book, key: Key)
    ensures Truth(b, key) == None <==> RunsOut(b, key) || Cyclic(b, key)
  {
    if RunsOut(b, key) {
      RunsOutUnresolvable(b, key);
    } else if Cyclic(b, key) {
      CyclicEndless(b, key);
    } else if !Resolvable(b, key) {
      assert Endless(b, key);
      EndlessCyclic(b, key);
    }
  }

  // ---------- which definition counts ----------

  /** An assignment as the scan reads it. */
  datatype Entry = Entry(home: string, name: string, parts: seq<Token>)

  function Built(entries: seq<Entry>): Book {
    if entries == [] then Book(map[], map[])
    else
      var last := entries[|entries| - 1];
      Added(Built(entries[..|entries| - 1]), last.home, last.name, last.parts)
  }

  predicate Defines(e: Entry, key: Key) {
    e.home == key.0 && e.name == key.1 && Parsed(e.parts) != None
  }

  /** A module's own name means its last readable definition there. */
  lemma {:induction false} LastInTheModule(entries: seq<Entry>, i: nat)
    requires i < |entries| && Parsed(entries[i].parts) != None
    requires forall j :: i < j < |entries| ==> !Defines(entries[j], (entries[i].home, entries[i].name))
    ensures Lookup(Built(entries), (entries[i].home, entries[i].name))
            == Some((entries[i].home, Parsed(entries[i].parts).value))
  {
    hide Parsed;
    if i < |entries| - 1 {
      LastInTheModule(entries[..|entries| - 1], i);
    }
  }

  /** A name the module does not define means its first readable definition anywhere. */
  lemma {:induction false} FirstAnywhere(entries: seq<Entry>, i: nat, from: string)
    requires i < |entries| && Parsed(entries[i].parts) != None
    requires forall j :: 0 <= j < i ==> !(entries[j].name == entries[i].name && Parsed(entries[j].parts) != None)
    requires forall j :: 0 <= j < |entries| ==> !Defines(entries[j], (from, entries[i].name))
    ensures Lookup(Built(entries), (from, entries[i].name))
            == Some((entries[i].home, Parsed(entries[i].parts).value))
  {
    hide Parsed;
    NotDefined(entries, (from, entries[i].name));
    FirstKept(entries, i);
  }

  lemma {:induction false} FirstKept(entries: seq<Entry>, i: nat)
    requires i < |entries| && Parsed(entries[i].parts) != None
    requires forall j :: 0 <= j < i ==> !(entries[j].name == entries[i].name && Parsed(entries[j].parts) != None)
    ensures Get(Built(entries).anywhere, entries[i].name)
            == Some((entries[i].home, Parsed(entries[i].parts).value))
  {
    hide Parsed;
    if i < |entries| - 1 {
      FirstKept(entries[..|entries| - 1], i);
    } else {
      NowhereDefined(entries[..i], entries[i].name);
    }
  }

  lemma {:induction false} NotDefined(entries: seq<Entry>, key: Key)
    requires forall j :: 0 <= j < |entries| ==> !Defines(entries[j], key)
    ensures key !in Built(entries).local
  {
    hide Parsed;
    if entries != [] {
      NotDefined(entries[..|entries| - 1], key);
      assert !Defines(entries[|entries| - 1], key);
    }
  }

  /** Names without a readable definition stay unknown. */
  lemma {:induction false} NowhereDefined(entries: seq<Entry>, name: string)
    requires forall j :: 0 <= j < |entries| ==> !(entries[j].name == name && Parsed(entries[j].parts) != None)
    ensures name !in Built(entries).anywhere
  {
    hide Parsed;
    if entries != [] {
      NowhereDefined(entries[..|entries| - 1], name);
    }
  }

  /** `home`: the module that defines `name` as seen from `module`. */
  function Home(b: Book, key: Key): string {
    if key in b.local then key.0
    else
      var hit := Get(b.anywhere, key.1);
      if hit != None then hit.value.0 else key.0
  }

  /** The home of a built tree's name is a module that really defines it, and the one `oid` reads it in. */
  lemma HomeDefines(entries: seq<Entry>, key: Key)
    ensures var b := Built(entries);
            Lookup(b, key) != None ==>
              Lookup(b, key).value.0 == Home(b, key) && (Home(b, key), key.1) in b.local
  {
    AnywhereIsLocal(entries, key.1);
  }

  lemma {:induction false} AnywhereIsLocal(entries: seq<Entry>, name: string)
    ensures var b := Built(entries); name in b.anywhere ==> (b.anywhere[name].0, name) in b.local
  {
    hide Parsed;
    if entries != [] {
      AnywhereIsLocal(entries[..|entries| - 1], name);
    }
  }

  // ---------- the tree object ----------

  class Tree {
    var local: map<Key, Def>
    var anywhere: map<string, (string, Def)>
    var memo: Memo

    constructor ()
      ensures Contents() == Book(map[], map[]) && memo == map[]
    {
      local, anywhere, memo := map[], map[], map[];
    }

    function Contents(): Book
      reads this
    {
      Book(local, anywhere)
    }

    /** `add`. */
    method Add(home: string, name: string, parts: seq<Token>)
      modifies this`local, this`anywhere
      ensures Contents() == Added(old(Contents()), home, name, parts)
    {
      if parts == [] {
        return;
      }
      var head, arcs := "", [];
      match parts[0] {
        case Both(n, number) => head, arcs := n, [number];
        case Number(number) => arcs := [number];
        case Name(n) => head := n;
        case Other(text) => head := text;
      }
      ghost var first := arcs;
      assert Def(head, first) == First(parts[0]);
      for i := 1 to |parts|
        invariant Arcs(parts[1..i]) != None && arcs == first + Arcs(parts[1..i]).value
      {
        var part := parts[i];
        assert parts[1..i + 1][..i - 1] == parts[1..i];
        assert parts[1..i + 1][i - 1] == part;
        if part.Name? || part.Other? {
          ArcsStop(parts[1..], i - 1);
          return;
        }
        arcs := arcs + [part.number];
      }
      assert parts[1..|parts|] == parts[1..];
      assert Parsed(parts) == Some(Def(head, arcs));
      local := local[(home, name) := Def(head, arcs)];
      if name !in anywhere {
        anywhere := anywhere[name := (home, Def(head, arcs))];
      }
    }

    /** `oid`. */
    method Oid(key: Key, depth: nat) returns (out: Option<string>)
      modifies this`memo
      ensures (out, memo) == Resolve(Contents(), old(memo), key, depth)
      decreases LIMIT + 1 - depth
    {
      if key.1 in Roots() {
        return Some(Roots()[key.1]);
      }
      if key in memo {
        return memo[key];
      }
      if depth > LIMIT {
        return None;
      }
      var where, found := key.0, Get(local, key);
      if found == None {
        var hit := Get(anywhere, key.1);
        if hit == None {
          return None;
        }
        where, found := hit.value.0, Some(hit.value.1);
      }
      var base := Some("");
      if found.value.head != "" {
        base := Oid((where, found.value.head), depth + 1);
      }
      out := if base == None then None else Some(Join(base.value, found.value.arcs));
      memo := memo[key := out];
    }
  }

  lemma {:induction false} ArcsStop(parts: seq<Token>, i: nat)
    requires i < |parts| && (parts[i].Name? || parts[i].Other?)
    ensures Arcs(parts) == None
  {
    if i < |parts| - 1 {
      ArcsStop(parts[..|parts| - 1], i);
    }
  }
}
