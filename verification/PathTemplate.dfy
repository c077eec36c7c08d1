/**
 Filling a route's path, `path_for` in `src/netcorenoc/api/asgi_call.py`: one replacement of `{name}` after
 the other. Exactly when the order of the values does not matter, and what becomes of a path's segments.
 */
module PathTemplate {
  import opened PercentEncoding
  import opened Wrappers

  // ---------- filling a template ----------

  /** `s.replace(what, with)`: left to right, without overlaps. */
  function Replace(s: string, what: string, with: string): string
    requires what != ""
  {
    if |s| < |what| then s
    else if s[..|what|] == what then with + Replace(s[|what|..], what, with)
    else [s[0]] + Replace(s[1..], what, with)
  }

  /** A named value, in the order of the mapping. */
  type Values = seq<(string, seq<Byte>)>

  /** `path_for`. */
  method PathFor(template: string, values: Values) returns (out: string)
    ensures out == Filled(template, values)
  {
    out := template;
    for i := 0 to |values|
      invariant out == Filled(template, values[..i])
    {
      assert values[..i + 1][..i] == values[..i];
      out := Replace(out, "{" + values[i].0 + "}", Quote(values[i].1));
    }
    assert values[..|values|] == values;
  }

  function Filled(template: string, values: Values): string {
    if values == [] then template
    else
      var (name, value) := values[|values| - 1];
      Replace(Filled(template, values[..|values| - 1]), "{" + name + "}", Quote(value))
  }

  /** A template in pieces: text without braces, named holes, and braces that belong to no hole. */
  datatype Piece = Text(text: string) | Hole(name: string) | Open | Close

  predicate NoBraces(s: string) {
    forall i :: 0 <= i < |s| ==> s[i] !in {'{', '}'}
  }

  predicate WellFormed(p: Piece) {
    match p
    case Text(text) => NoBraces(text)
    case Hole(name) => NoBraces(name)
    case _ => true
  }

  predicate AllWellFormed(pieces: seq<Piece>) {
    forall i :: 0 <= i < |pieces| ==> WellFormed(pieces[i])
  }

  function Shown(p: Piece): string {
    match p
    case Text(text) => text
    case Hole(name) => "{" + name + "}"
    case Open => "{"
    case Close => "}"
  }

  function Render(pieces: seq<Piece>): string {
    if pieces == [] then "" else Shown(pieces[0]) + Render(pieces[1..])
  }

  function Filling(p: Piece, name: string, value: string): Piece {
    if p == Hole(name) then Text(value) else p
  }

  function FillOne(pieces: seq<Piece>, name: string, value: string): seq<Piece> {
    seq(|pieces|, i requires 0 <= i < |pieces| => Filling(pieces[i], name, value))
  }

  /** Characters that open no brace are passed over. */
  lemma {:induction false} PassOver(text: string, rest: string, name: string, with: string)
    requires forall i :: 0 <= i < |text| ==> text[i] != '{'
    ensures Replace(text + rest, "{" + name + "}", with) == text + Replace(rest, "{" + name + "}", with)
  {
    if text == "" {
      assert text + rest == rest;
    } else {
      var s, what := text + rest, "{" + name + "}";
      PassOver(text[1..], rest, name, with);
      assert s[1..] == text[1..] + rest;
      assert what[0] == '{' && s[0] == text[0];
      if |s| >= |what| {
        assert s[..|what|][0] != what[0];
      } else {
        TooShort(text[1..] + rest, what, with);
        TooShort(rest, what, with);
      }
    }
  }

  lemma TooShort(s: string, what: string, with: string)
    requires what != "" && |s| < |what|
    ensures Replace(s, what, with) == s
  {
  }

  /** Where a name's placeholder stands, another name's does not start. */
  lemma HoleMatches(other: string, rest: string, name: string)
    requires NoBraces(other) && NoBraces(name) && |other| + 2 + |rest| >= |name| + 2
    requires ("{" + other + "}" + rest)[..|name| + 2] == "{" + name + "}"
    ensures other == name
  {
    var s, what := "{" + other + "}" + rest, "{" + name + "}";
    assert forall i :: 0 <= i < |what| ==> s[i] == what[i];
    assert forall i :: 0 <= i < |name| ==> what[i + 1] == name[i];
    assert forall i :: 0 <= i < |other| ==> s[i + 1] == other[i];
    assert what[|name| + 1] == '}' && s[|other| + 1] == '}';
  }

  lemma SkipsOne(s: string, what: string, with: string)
    requires what != "" && s != "" && (|s| >= |what| ==> s[..|what|] != what)
    ensures Replace(s, what, with) == [s[0]] + Replace(s[1..], what, with)
  {
    if |s| < |what| {
      TooShort(s[1..], what, with);
      assert s == [s[0]] + s[1..];
    }
  }

  /** Another name's hole is passed over too. */
  lemma OtherHole(other: string, rest: string, name: string, with: string)
    requires NoBraces(other) && NoBraces(name) && other != name
    ensures var what := "{" + name + "}";
            Replace("{" + other + "}" + rest, what, with) == "{" + other + "}" + Replace(rest, what, with)
  {
    hide Replace;
    var what, hole, tail := "{" + name + "}", "{" + other + "}", other + "}";
    var s := hole + rest;
    assert s[1..] == tail + rest;
    if |s| >= |what| && s[..|what|] == what {
      HoleMatches(other, rest, name);
    }
    SkipsOne(s, what, with);
    PassOver(tail, rest, name, with);
    var after := Replace(rest, what, with);
    assert ['{'] + (tail + after) == hole + after;
  }

  // ---------- what a lone brace encloses ----------

  /** How long the text is up to the next brace, if that is a lone closing one. */
  function Enclosed(pieces: seq<Piece>): Option<nat> {
    if pieces == [] then None
    else
      match pieces[0]
      case Close => Some(0)
      case Text(text) =>
        var rest := Enclosed(pieces[1..]);
        if rest == None then None else Some(|text| + rest.value)
      case _ => None
  }

  /** Lone braces enclose no text shorter than `m`. */
  ghost predicate Apart(pieces: seq<Piece>, m: nat) {
    pieces == [] ||
    (Apart(pieces[1..], m)
     && (pieces[0] == Open && Enclosed(pieces[1..]) != None ==> Enclosed(pieces[1..]).value >= m))
  }

  /** After an opening brace that stands alone no closing one does. */
  predicate Settled(pieces: seq<Piece>) {
    pieces == [] || (Settled(pieces[1..]) && (pieces[0] == Open ==> Close !in pieces[1..]))
  }

  lemma {:induction false} NothingEnclosed(pieces: seq<Piece>)
    requires Close !in pieces
    ensures Enclosed(pieces) == None
  {
    if pieces != [] {
      assert pieces[0] in pieces;
      NothingEnclosed(pieces[1..]);
    }
  }

  lemma {:induction false} SettledApart(pieces: seq<Piece>, m: nat)
    requires Settled(pieces)
    ensures Apart(pieces, m)
  {
    if pieces != [] {
      SettledApart(pieces[1..], m);
      if pieces[0] == Open {
        NothingEnclosed(pieces[1..]);
      }
    }
  }

  lemma {:induction false} FillSettled(pieces: seq<Piece>, name: string, value: string)
    requires Settled(pieces)
    ensures Settled(FillOne(pieces, name, value))
  {
    if pieces != [] {
      FillSettled(pieces[1..], name, value);
      assert FillOne(pieces, name, value)[1..] == FillOne(pieces[1..], name, value);
    }
  }

  lemma {:induction false} FillEnclosed(pieces: seq<Piece>, name: string, value: string)
    ensures var before, after := Enclosed(pieces), Enclosed(FillOne(pieces, name, value));
            after == before || (before == None && after != None && after.value >= |value|)
  {
    if pieces != [] {
      FillEnclosed(pieces[1..], name, value);
      assert FillOne(pieces, name, value)[1..] == FillOne(pieces[1..], name, value);
    }
  }

  lemma {:induction false} FillApart(pieces: seq<Piece>, name: string, value: string, m: nat)
    requires Apart(pieces, m) && |value| >= m
    ensures Apart(FillOne(pieces, name, value), m)
  {
    if pieces != [] {
      FillApart(pieces[1..], name, value, m);
      FillEnclosed(pieces[1..], name, value);
      assert FillOne(pieces, name, value)[1..] == FillOne(pieces[1..], name, value);
    }
  }

  lemma OpensFirst(pieces: seq<Piece>)
    requires pieces != []
    ensures pieces[0].Open? || pieces[0].Hole? ==> Render(pieces) != "" && Render(pieces)[0] == '{'
  {
  }

  lemma EndsAfter(text: string, rest: string, name: string)
    requires NoBraces(text) && NoBraces(name) && name + "}" <= text + rest
    ensures |text| <= |name| && NoBraces(name[|text|..]) && name[|text|..] + "}" <= rest
  {
    var s, end := text + rest, name + "}";
    assert end[|name|] == '}' && s[|name|] == end[|name|];
    assert forall i :: 0 <= i < |text| ==> s[i] == text[i];
    assert name[|text|..] + "}" == end[|text|..] <= s[|text|..] == rest;
  }

  /** A name that ends at a closing brace is the text enclosed. */
  lemma {:induction false} EndsThere(pieces: seq<Piece>, name: string)
    requires AllWellFormed(pieces) && NoBraces(name) && name + "}" <= Render(pieces)
    ensures Enclosed(pieces) == Some(|name|)
  {
    var s, end := Render(pieces), name + "}";
    assert end[|name|] == '}' && forall i :: 0 <= i < |name| ==> end[i] == name[i];
    if pieces != [] {
      assert s[0] == end[0] && end[0] != '{';
      OpensFirst(pieces);
      match pieces[0]
      case Text(text) =>
        EndsAfter(text, Render(pieces[1..]), name);
        EndsThere(pieces[1..], name[|text|..]);
      case Close =>
        assert s[0] == '}';
        assert end[0] == s[0];
      case _ =>
    }
  }

  /** Replacing a name shorter than any text enclosed by lone braces fills exactly that name's holes. */
  lemma {:induction false} ReplaceFills(pieces: seq<Piece>, name: string, value: string)
    requires NoBraces(name) && AllWellFormed(pieces) && Apart(pieces, |name| + 1)
    ensures Replace(Render(pieces), "{" + name + "}", value) == Render(FillOne(pieces, name, value))
  {
    var what := "{" + name + "}";
    if pieces != [] {
      var first, rest := pieces[0], pieces[1..];
      ReplaceFills(rest, name, value);
      var s := Render(rest);
      assert FillOne(pieces, name, value)[1..] == FillOne(rest, name, value);
      match first
      case Text(text) => PassOver(text, s, name, value);
      case Close => PassOver("}", s, name, value);
      case Open => LoneOpen(rest, name, value);
      case Hole(other) =>
        if other == name {
          assert (what + s)[..|what|] == what && (what + s)[|what|..] == s;
        } else {
          OtherHole(other, s, name, value);
        }
    }
  }

  /** An opening brace that stands alone starts no placeholder. */
  lemma LoneOpen(rest: seq<Piece>, name: string, value: string)
    requires NoBraces(name) && AllWellFormed(rest)
    requires Enclosed(rest) != None ==> Enclosed(rest).value > |name|
    ensures var what := "{" + name + "}";
            Replace("{" + Render(rest), what, value) == "{" + Replace(Render(rest), what, value)
  {
    hide Replace;
    var what, s := "{" + name + "}", "{" + Render(rest);
    assert s[1..] == Render(rest);
    if |s| >= |what| && s[..|what|] == what {
      assert what[1..] == name + "}";
      assert s[..|what|][1..] == Render(rest)[..|name| + 1];
      EndsThere(rest, name);
    }
    SkipsOne(s, what, value);
  }

  // ---------- the whole mapping ----------

  function FillAll(pieces: seq<Piece>, values: Values): seq<Piece> {
    if values == [] then pieces
    else
      var (name, value) := values[|values| - 1];
      FillOne(FillAll(pieces, values[..|values| - 1]), name, Quote(value))
  }

  /** What a hole means, all names at once. */
  function Meant(p: Piece, values: map<string, seq<Byte>>): Piece {
    if p.Hole? && p.name in values then Text(Quote(values[p.name])) else p
  }

  function Substituted(pieces: seq<Piece>, values: map<string, seq<Byte>>): seq<Piece> {
    seq(|pieces|, i requires 0 <= i < |pieces| => Meant(pieces[i], values))
  }

  /** The mapping that a sequence of distinct names lists. */
  ghost predicate Lists(values: Values, m: map<string, seq<Byte>>) {
    && (forall i :: 0 <= i < |values| ==> values[i].0 in m && m[values[i].0] == values[i].1)
    && (forall name :: name in m ==> exists i :: 0 <= i < |values| && values[i].0 == name)
    && (forall i, j :: 0 <= i < j < |values| ==> values[i].0 != values[j].0)
  }

  /** Filling name after name fills holes only, as long as lone braces enclose nothing - or nothing as
      short as a name, and no value is shorter either. */
  lemma {:induction false} FilledRenders(pieces: seq<Piece>, values: Values, m: nat)
    requires AllWellFormed(pieces) && Apart(pieces, m)
    requires forall i :: 0 <= i < |values| ==> NoBraces(values[i].0) && |values[i].0| < m
    requires Settled(pieces) || forall i :: 0 <= i < |values| ==> |Quote(values[i].1)| >= m
    ensures Filled(Render(pieces), values) == Render(FillAll(pieces, values))
    ensures |FillAll(pieces, values)| == |pieces| && AllWellFormed(FillAll(pieces, values))
    ensures Apart(FillAll(pieces, values), m) && (Settled(pieces) ==> Settled(FillAll(pieces, values)))
  {
    if values != [] {
      var rest := values[..|values| - 1];
      var (name, value) := values[|values| - 1];
      FilledRenders(pieces, rest, m);
      hide Replace, Apart, Settled, NoBraces, WellFormed, Quote, Render, FillOne;
      FillStep(FillAll(pieces, rest), name, value, m);
    }
  }

  lemma FillStep(pieces: seq<Piece>, name: string, value: seq<Byte>, m: nat)
    requires AllWellFormed(pieces) && Apart(pieces, m) && NoBraces(name) && |name| < m
    requires Settled(pieces) || |Quote(value)| >= m
    ensures var after := FillOne(pieces, name, Quote(value));
            && Replace(Render(pieces), "{" + name + "}", Quote(value)) == Render(after)
            && |after| == |pieces| && AllWellFormed(after) && Apart(after, m)
            && (Settled(pieces) ==> Settled(after))
  {
    hide Replace, Apart, Settled, Quote, Render;
    ApartLess(pieces, m, |name| + 1);
    ReplaceFills(pieces, name, Quote(value));
    QuotePlain(value);
    if Settled(pieces) {
      FillSettled(pieces, name, Quote(value));
      SettledApart(FillOne(pieces, name, Quote(value)), m);
    } else {
      FillApart(pieces, name, Quote(value), m);
    }
  }

  lemma {:induction false} ApartLess(pieces: seq<Piece>, m: nat, n: nat)
    requires Apart(pieces, m) && n <= m
    ensures Apart(pieces, n)
  {
    if pieces != [] {
      ApartLess(pieces[1..], m, n);
    }
  }

  /** One piece after filling some of the names: its value if its name was among them. */
  lemma {:induction false} FilledPiece(pieces: seq<Piece>, values: Values, i: nat)
    requires i < |pieces|
    requires forall a, b :: 0 <= a < b < |values| ==> values[a].0 != values[b].0
    ensures |FillAll(pieces, values)| == |pieces|
    ensures forall k :: 0 <= k < |values| && pieces[i] == Hole(values[k].0) ==>
              FillAll(pieces, values)[i] == Text(Quote(values[k].1))
    ensures (forall k :: 0 <= k < |values| ==> pieces[i] != Hole(values[k].0)) ==>
              FillAll(pieces, values)[i] == pieces[i]
  {
    if values != [] {
      hide Quote;
      var rest, last := values[..|values| - 1], values[|values| - 1];
      FilledPiece(pieces, rest, i);
      assert forall k :: 0 <= k < |rest| ==> rest[k] == values[k] && rest[k].0 != last.0;
      assert FillAll(pieces, values)[i] == Filling(FillAll(pieces, rest)[i], last.0, Quote(last.1));
    }
  }

  function Longest(values: Values): nat {
    if values == [] then 0
    else
      var before, last := Longest(values[..|values| - 1]), |values[|values| - 1].0|;
      if last > before then last else before
  }

  lemma {:induction false} LongestBounds(values: Values)
    ensures forall i :: 0 <= i < |values| ==> |values[i].0| <= Longest(values)
  {
    if values != [] {
      LongestBounds(values[..|values| - 1]);
    }
  }

  /** Where no lone `{` stands before a lone `}`, filling the names one after the other is filling them
      all at once, in whatever order the mapping lists them: no value brings in a brace. */
  lemma PathForSubstitutes(pieces: seq<Piece>, values: Values, m: map<string, seq<Byte>>)
    requires AllWellFormed(pieces) && Settled(pieces)
    requires Lists(values, m) && forall name :: name in m ==> NoBraces(name)
    ensures Filled(Render(pieces), values) == Render(Substituted(pieces, m))
  {
    hide Quote, Filled, Render, Apart, Settled, NoBraces, WellFormed, FillAll;
    LongestBounds(values);
    SettledApart(pieces, Longest(values) + 1);
    FilledRenders(pieces, values, Longest(values) + 1);
    forall i | 0 <= i < |pieces|
      ensures FillAll(pieces, values)[i] == Meant(pieces[i], m)
    {
      FilledPiece(pieces, values, i);
      if pieces[i].Hole? && pieces[i].name in m {
        var k :| 0 <= k < |values| && values[k].0 == pieces[i].name;
        assert pieces[i] == Hole(values[k].0);
      }
    }
    assert FillAll(pieces, values) == Substituted(pieces, m);
  }

  // ---------- reading a template ----------

  /** Where the first brace stands, or the end. */
  function Brace(s: string): (k: nat)
    ensures k <= |s| && (k < |s| ==> s[k] in {'{', '}'})
    ensures forall i :: 0 <= i < k ==> s[i] !in {'{', '}'}
  {
    if s == "" || s[0] in {'{', '}'} then 0 else 1 + Brace(s[1..])
  }

  /** A template starts with a placeholder: `{` and, before any other brace, `}`. */
  predicate HoleFirst(t: string) {
    t != "" && t[0] == '{' && Brace(t[1..]) + 1 < |t| && t[Brace(t[1..]) + 1] == '}'
  }

  /** The first piece, and what is left. */
  function Cut(t: string): (cut: (Piece, string))
    requires t != ""
    ensures |cut.1| < |t|
  {
    var k := Brace(t[1..]) + 1;
    if HoleFirst(t) then (Hole(t[1..k]), t[k + 1..])
    else (if t[0] == '{' then Open else if t[0] == '}' then Close else Text([t[0]]), t[1..])
  }

  /** The pieces of a template. */
  function Parse(t: string): seq<Piece>
    decreases |t|
  {
    if t == "" then [] else [Cut(t).0] + Parse(Cut(t).1)
  }

  lemma HoleCut(t: string)
    requires HoleFirst(t)
    ensures t == "{" + t[1..Brace(t[1..]) + 1] + "}" + t[Brace(t[1..]) + 2..]
    ensures NoBraces(t[1..Brace(t[1..]) + 1])
  {
    hide Brace;
    HoleSpan(t, Brace(t[1..]));
  }

  lemma HoleSpan(t: string, k: nat)
    requires k + 1 < |t| && t[0] == '{' && t[k + 1] == '}' && forall i :: 0 <= i < k ==> t[1..][i] !in {'{', '}'}
    ensures t == "{" + t[1..k + 1] + "}" + t[k + 2..] && NoBraces(t[1..k + 1])
  {
    var name := t[1..k + 1];
    assert forall i :: 0 <= i < k ==> name[i] == t[1..][i];
  }

  lemma CutMeets(t: string)
    requires t != ""
    ensures t == Shown(Cut(t).0) + Cut(t).1 && WellFormed(Cut(t).0)
    ensures Cut(t).0.Hole? ==> |Cut(t).0.name| < |t|
  {
    if HoleFirst(t) {
      HoleCut(t);
    } else {
      assert t == [t[0]] + t[1..];
    }
  }

  lemma {:induction false} ParseRenders(t: string)
    ensures Render(Parse(t)) == t && AllWellFormed(Parse(t))
    ensures forall i :: 0 <= i < |Parse(t)| && Parse(t)[i].Hole? ==> |Parse(t)[i].name| < |t|
    decreases |t|
  {
    if t != "" {
      CutMeets(t);
      hide Cut, Shown, WellFormed;
      var first, rest := Cut(t).0, Cut(t).1;
      ParseRenders(rest);
      assert ([first] + Parse(rest))[1..] == Parse(rest);
    }
  }

  lemma {:induction false} FirstBrace(t: string)
    requires t != "" && t[0] !in {'{', '}'}
    ensures Brace(t) == Brace(t[1..]) + 1
  {
  }

  /** Lone braces of a template as written enclose no text: that would be a hole. */
  lemma {:induction false} ParseApart(t: string, m: nat)
    ensures Apart(Parse(t), m)
    ensures Brace(t) == |t| || t[Brace(t)] == '{' ==> Enclosed(Parse(t)) == None
    decreases |t|
  {
    if t != "" {
      var first, rest := Cut(t).0, Cut(t).1;
      ParseApart(rest, m);
      hide Brace, Parse, Apart, Enclosed;
      ParsedFirst(t, m);
      if first == Open {
        assert !HoleFirst(t);
      } else if first.Text? {
        FirstBrace(t);
      } else {
        BraceHere(t);
      }
    }
  }

  lemma BraceHere(t: string)
    requires t != "" && t[0] in {'{', '}'}
    ensures Brace(t) == 0
  {
  }

  lemma ParsedFirst(t: string, m: nat)
    requires t != ""
    ensures var first, rest := Cut(t).0, Parse(Cut(t).1);
            && (Apart(Parse(t), m) <==>
                  Apart(rest, m) && (first == Open && Enclosed(rest) != None ==> Enclosed(rest).value >= m))
            && (first == Open || first.Hole? ==> Enclosed(Parse(t)) == None)
            && (first.Text? && Enclosed(rest) == None ==> Enclosed(Parse(t)) == None)
  {
    assert Parse(t)[1..] == Parse(Cut(t).1);
    hide Cut;
  }

  /** With its holes taken out, the template still has a `{` before a `}`. */
  predicate Nests(t: string) {
    !Settled(Parse(t))
  }

  /** In which order the values come makes no difference to what this template becomes. */
  ghost predicate Indifferent(t: string) {
    forall a: Values, b: Values, m: map<string, seq<Byte>> ::
      Lists(a, m) && Lists(b, m) && (forall name :: name in m ==> NoBraces(name)) ==> Filled(t, a) == Filled(t, b)
  }

  // ---------- making a placeholder out of values ----------

  lemma {:induction false} FilledAfter(t: string, first: (string, seq<Byte>), values: Values)
    ensures Filled(t, [first] + values) == Filled(Filled(t, [first]), values)
  {
    var all := [first] + values;
    if values == [] {
      assert all == [first];
    } else {
      FilledAfter(t, first, values[..|values| - 1]);
      assert all[..|all| - 1] == [first] + values[..|values| - 1];
    }
  }

  /** Taking something out that is there makes a string shorter. */
  lemma {:induction false} TakenOut(s: string, what: string, at: nat)
    requires what != "" && at + |what| <= |s| && s[at..at + |what|] == what
    ensures |Replace(s, what, "")| <= |s| - |what|
  {
    if s[..|what|] == what {
      NoLonger(s[|what|..], what);
    } else {
      var rest := s[1..];
      assert at > 0;
      assert rest[at - 1..at - 1 + |what|] == s[at..at + |what|];
      TakenOut(rest, what, at - 1);
    }
  }

  lemma {:induction false} NoLonger(s: string, what: string)
    requires what != ""
    ensures |Replace(s, what, "")| <= |s|
  {
    if |s| >= |what| {
      NoLonger(if s[..|what|] == what then s[|what|..] else s[1..], what);
    }
  }

  lemma {:induction false} QuoteLength(value: seq<Byte>)
    ensures |Quote(value)| >= |value|
  {
    if value != [] {
      QuoteLength(value[1..]);
    }
  }

  /** The holes' names, each once. */
  function Names(pieces: seq<Piece>): (names: seq<string>)
    ensures forall i :: 0 <= i < |pieces| && pieces[i].Hole? ==> pieces[i].name in names
    ensures forall name :: name in names ==> Hole(name) in pieces
    ensures forall i, j :: 0 <= i < j < |names| ==> names[i] != names[j]
  {
    if pieces == [] then []
    else
      var last, before := pieces[|pieces| - 1], Names(pieces[..|pieces| - 1]);
      if last.Hole? && last.name !in before then before + [last.name] else before
  }

  /** One value for every hole. */
  function Each(names: seq<string>, value: seq<Byte>): Values {
    seq(|names|, i requires 0 <= i < |names| => (names[i], value))
  }

  lemma EachFills(pieces: seq<Piece>, value: seq<Byte>)
    ensures var filled := FillAll(pieces, Each(Names(pieces), value));
            && |filled| == |pieces| && (forall i :: 0 <= i < |filled| ==> !filled[i].Hole?)
            && forall i :: 0 <= i < |filled| && !pieces[i].Hole? ==> filled[i] == pieces[i]
  {
    var names := Names(pieces);
    var values := Each(names, value);
    FilledPieces(pieces, values);
    forall i | 0 <= i < |pieces|
      ensures !FillAll(pieces, values)[i].Hole?
      ensures !pieces[i].Hole? ==> FillAll(pieces, values)[i] == pieces[i]
    {
      FilledPiece(pieces, values, i);
      if pieces[i].Hole? {
        var k :| 0 <= k < |names| && names[k] == pieces[i].name;
        assert values[k].0 == names[k];
      }
    }
  }

  lemma {:induction false} FilledPieces(pieces: seq<Piece>, values: Values)
    ensures |FillAll(pieces, values)| == |pieces|
  {
    if values != [] {
      FilledPieces(pieces, values[..|values| - 1]);
    }
  }

  lemma {:induction false} Unsettled(pieces: seq<Piece>) returns (i: nat, j: nat)
    requires !Settled(pieces)
    ensures i < j < |pieces| && pieces[i] == Open && pieces[j] == Close
  {
    if !Settled(pieces[1..]) {
      i, j := Unsettled(pieces[1..]);
      i, j := i + 1, j + 1;
    } else {
      i := 0;
      j :| 0 <= j < |pieces[1..]| && pieces[1..][j] == Close;
      j := j + 1;
    }
  }

  /** Without holes, a lone `{` before a lone `}` encloses text alone somewhere. */
  lemma {:induction false} Innermost(pieces: seq<Piece>, i: nat, j: nat) returns (a: nat, b: nat)
    requires i < j < |pieces| && pieces[i] == Open && pieces[j] == Close
    requires forall k :: 0 <= k < |pieces| ==> !pieces[k].Hole?
    ensures a < b < |pieces| && pieces[a] == Open && pieces[b] == Close
    ensures forall k :: a < k < b ==> pieces[k].Text?
    decreases j - i
  {
    if k :| i < k < j && pieces[k] == Open {
      a, b := Innermost(pieces, k, j);
    } else if k :| i < k < j && pieces[k] == Close {
      a, b := Innermost(pieces, i, k);
    } else {
      a, b := i, j;
    }
  }

  lemma {:induction false} TextsHaveNoBraces(pieces: seq<Piece>)
    requires AllWellFormed(pieces) && forall k :: 0 <= k < |pieces| ==> pieces[k].Text?
    ensures NoBraces(Render(pieces))
  {
    if pieces != [] {
      TextsHaveNoBraces(pieces[1..]);
    }
  }

  lemma {:induction false} ApartAt(pieces: seq<Piece>, m: nat, i: nat)
    requires Apart(pieces, m) && i < |pieces| && pieces[i] == Open && Enclosed(pieces[i + 1..]) != None
    ensures Enclosed(pieces[i + 1..]).value >= m
  {
    if i > 0 {
      assert pieces[1..][i..] == pieces[i + 1..];
      ApartAt(pieces[1..], m, i - 1);
    }
  }

  /** Where lone braces enclose text alone, that text is the name of a placeholder. */
  lemma Placeholder(pieces: seq<Piece>, a: nat, b: nat) returns (name: string, at: nat)
    requires AllWellFormed(pieces) && a < b < |pieces| && pieces[a] == Open && pieces[b] == Close
    requires forall k :: a < k < b ==> pieces[k].Text?
    ensures NoBraces(name) && Enclosed(pieces[a + 1..]) == Some(|name|)
    ensures var s, what := Render(pieces), "{" + name + "}";
            at + |what| <= |s| && s[at..at + |what|] == what
  {
    hide Render, Enclosed, NoBraces, WellFormed;
    var texts := pieces[a + 1..b];
    name, at := Render(texts), |Render(pieces[..a])|;
    assert forall k :: 0 <= k < |texts| ==> texts[k] == pieces[a + 1 + k];
    TextsHaveNoBraces(texts);
    RenderAround(pieces, a, b);
    Middle(Render(pieces[..a]), name, Render(pieces[b + 1..]));
    EndsThere(pieces[a + 1..], name);
  }

  lemma RenderAround(pieces: seq<Piece>, a: nat, b: nat)
    requires a < b < |pieces| && pieces[a] == Open && pieces[b] == Close
    ensures var name, after := Render(pieces[a + 1..b]), Render(pieces[b + 1..]);
            && Render(pieces[a + 1..]) == name + ("}" + after)
            && Render(pieces) == Render(pieces[..a]) + ("{" + (name + ("}" + after)))
  {
    hide Render, Shown;
    var before, texts, after := pieces[..a], pieces[a + 1..b], pieces[b + 1..];
    var tail := [Close] + after;
    var inner := texts + tail;
    var from := [Open] + inner;
    assert pieces[a + 1..] == inner;
    assert pieces == before + from;
    RenderJoins(texts, tail);
    RenderStep(Close, after);
    RenderStep(Open, inner);
    RenderJoins(before, from);
    LoneBraces();
  }

  lemma LoneBraces()
    ensures Shown(Open) == "{" && Shown(Close) == "}"
  {
  }

  lemma Middle(pre: string, name: string, post: string)
    ensures name + "}" <= name + ("}" + post)
    ensures var s, what := pre + ("{" + (name + ("}" + post))), "{" + name + "}";
            |pre| + |what| <= |s| && s[|pre|..|pre| + |what|] == what
  {
  }

  /** Filling a template's holes with long values makes a placeholder that was not there. */
  lemma LongPlaceholder(t: string) returns (values: Values, m: map<string, seq<Byte>>, name: string, at: nat)
    requires Nests(t)
    ensures Lists(values, m) && forall x :: x in m ==> NoBraces(x)
    ensures name !in m && NoBraces(name) && |name| >= |t|
    ensures var s, what := Filled(t, values), "{" + name + "}";
            at + |what| <= |s| && s[at..at + |what|] == what
  {
    hide Render, FillAll, Parse, Filled, Apart, Each, Lists, NoBraces, WellFormed, Nests;
    var long := seq(|t| + 1, _ => 97);
    ShortNames(t);
    LongFill(t, long);
    EachFills(Parse(t), long);
    values := Each(Names(Parse(t)), long);
    name, at := Uncovered(t, FillAll(Parse(t), values));
    m := EachLists(Names(Parse(t)), long);
  }

  lemma Uncovered(t: string, filled: seq<Piece>) returns (name: string, at: nat)
    requires Nests(t) && AllWellFormed(filled) && Apart(filled, |t| + 1) && |filled| == |Parse(t)|
    requires forall i :: 0 <= i < |filled| ==> !filled[i].Hole? && (!Parse(t)[i].Hole? ==> filled[i] == Parse(t)[i])
    ensures NoBraces(name) && |name| > |t|
    ensures var s, what := Render(filled), "{" + name + "}";
            at + |what| <= |s| && s[at..at + |what|] == what
  {
    hide Render, Parse, Apart, Enclosed, NoBraces, WellFormed, Settled;
    var i, j := Unsettled(Parse(t));
    var o, c := Innermost(filled, i, j);
    name, at := Placeholder(filled, o, c);
    ApartAt(filled, |t| + 1, o);
  }

  /** Giving that placeholder a value of its own comes out differently last and first. */
  lemma NestedNamesDiffer(t: string) returns (a: Values, b: Values, m: map<string, seq<Byte>>)
    requires Nests(t)
    ensures Lists(a, m) && Lists(b, m) && (forall name :: name in m ==> NoBraces(name))
    ensures Filled(t, a) != Filled(t, b)
  {
    hide Filled, Replace, Quote, Lists, NoBraces;
    var values, m0, name, at := LongPlaceholder(t);
    ListsLast(values, m0, name, []);
    ListsFirst(values, m0, name, []);
    a, b, m := values + [(name, [])], [(name, [])] + values, m0[name := []];
    Before(t, name, values);
    After(t, name, values);
    TakenOut(Filled(t, values), "{" + name + "}", at);
  }

  /** A placeholder too long to be in the template changes nothing when its value comes first. */
  lemma Before(t: string, name: string, values: Values)
    requires |name| >= |t|
    ensures Filled(t, [(name, [])] + values) == Filled(t, values)
  {
    var first: (string, seq<Byte>) := (name, []);
    FilledAfter(t, first, values);
    OneName(t, first);
    TooShort(t, "{" + name + "}", Quote([]));
  }

  lemma After(t: string, name: string, values: Values)
    ensures Filled(t, values + [(name, [])]) == Replace(Filled(t, values), "{" + name + "}", "")
  {
    var all := values + [(name, [])];
    assert all[..|all| - 1] == values;
  }

  lemma ShortNames(t: string)
    ensures forall name :: name in Names(Parse(t)) ==> NoBraces(name) && |name| <= |t|
  {
    var pieces := Parse(t);
    ParseRenders(t);
    forall name | name in Names(pieces)
      ensures NoBraces(name) && |name| <= |t|
    {
      var k :| 0 <= k < |pieces| && pieces[k] == Hole(name);
      assert WellFormed(pieces[k]);
    }
  }

  lemma LongFill(t: string, long: seq<Byte>)
    requires |long| == |t| + 1
    ensures var filled := FillAll(Parse(t), Each(Names(Parse(t)), long));
            && Filled(t, Each(Names(Parse(t)), long)) == Render(filled)
            && AllWellFormed(filled) && Apart(filled, |t| + 1)
  {
    hide *;
    ShortNames(t);
    ParseRenders(t);
    ParseApart(t, |t| + 1);
    AllLong(Parse(t), Names(Parse(t)), long, |t| + 1);
  }

  lemma AllLong(pieces: seq<Piece>, names: seq<string>, long: seq<Byte>, m: nat)
    requires AllWellFormed(pieces) && Apart(pieces, m) && |long| >= m
    requires forall name :: name in names ==> NoBraces(name) && |name| < m
    ensures var filled := FillAll(pieces, Each(names, long));
            && Filled(Render(pieces), Each(names, long)) == Render(filled)
            && AllWellFormed(filled) && Apart(filled, m)
  {
    hide Render, Filled, FillAll, Apart, Quote, NoBraces, WellFormed, Each, Settled;
    EachLong(names, long, m);
    FilledRenders(pieces, Each(names, long), m);
  }

  lemma EachLong(names: seq<string>, long: seq<Byte>, m: nat)
    requires |long| >= m && forall name :: name in names ==> NoBraces(name) && |name| < m
    ensures var values := Each(names, long);
            forall i :: 0 <= i < |values| ==> NoBraces(values[i].0) && |values[i].0| < m && |Quote(values[i].1)| >= m
  {
    hide NoBraces, Quote;
    QuoteLength(long);
    var values := Each(names, long);
    forall i | 0 <= i < |values|
      ensures NoBraces(values[i].0) && |values[i].0| < m && |Quote(values[i].1)| >= m
    {
      assert values[i].0 == names[i] && names[i] in names;
    }
  }

  lemma EachLists(names: seq<string>, value: seq<Byte>) returns (m: map<string, seq<Byte>>)
    requires forall i, j :: 0 <= i < j < |names| ==> names[i] != names[j]
    ensures Lists(Each(names, value), m) && m.Keys == set name | name in names
  {
    m := map name | name in names :: value;
    var values := Each(names, value);
    forall name | name in m
      ensures exists i :: 0 <= i < |values| && values[i].0 == name
    {
      var k :| 0 <= k < |names| && names[k] == name;
      assert values[k].0 == name;
    }
  }

  lemma ListsLast(values: Values, m: map<string, seq<Byte>>, name: string, value: seq<Byte>)
    requires Lists(values, m) && name !in m
    ensures Lists(values + [(name, value)], m[name := value])
  {
    var more, n := values + [(name, value)], |values|;
    assert forall i :: 0 <= i < n ==> more[i] == values[i] && more[i].0 in m;
    var all := m[name := value];
    forall x | x in all
      ensures exists i :: 0 <= i < |more| && more[i].0 == x
    {
      if x == name {
        assert more[n].0 == x;
      } else {
        var k :| 0 <= k < n && values[k].0 == x;
        assert more[k].0 == x;
      }
    }
  }

  lemma ListsFirst(values: Values, m: map<string, seq<Byte>>, name: string, value: seq<Byte>)
    requires Lists(values, m) && name !in m
    ensures Lists([(name, value)] + values, m[name := value])
  {
    var more := [(name, value)] + values;
    assert forall i :: 1 <= i < |more| ==> more[i] == values[i - 1] && more[i].0 in m;
    var all := m[name := value];
    forall x | x in all
      ensures exists i :: 0 <= i < |more| && more[i].0 == x
    {
      if x == name {
        assert more[0].0 == x;
      } else {
        var k :| 0 <= k < |values| && values[k].0 == x;
        assert more[k + 1].0 == x;
      }
    }
  }

  lemma {:induction false} SettledIndifferent(t: string, a: Values, b: Values, m: map<string, seq<Byte>>)
    requires !Nests(t) && Lists(a, m) && Lists(b, m) && forall name :: name in m ==> NoBraces(name)
    ensures Filled(t, a) == Filled(t, b)
  {
    ParseRenders(t);
    PathForSubstitutes(Parse(t), a, m);
    PathForSubstitutes(Parse(t), b, m);
  }

  /** For names without braces, the order of the values makes no difference, whatever they are, exactly
      when the template with its holes taken out has no `{` before a `}`. */
  lemma OrderMattersExactlyWhenNested(t: string)
    ensures Indifferent(t) <==> !Nests(t)
  {
    if Nests(t) {
      var a, b, m := NestedNamesDiffer(t);
    } else {
      forall a: Values, b: Values, m: map<string, seq<Byte>>
        | Lists(a, m) && Lists(b, m) && (forall name :: name in m ==> NoBraces(name))
        ensures Filled(t, a) == Filled(t, b)
      {
        SettledIndifferent(t, a, b, m);
      }
    }
  }

  /** So it never matters for a template of text and placeholders, as the routes' are. */
  lemma RoutesAreIndifferent(pieces: seq<Piece>)
    requires AllWellFormed(pieces) && forall i :: 0 <= i < |pieces| ==> pieces[i].Text? || pieces[i].Hole?
    ensures !Nests(Render(pieces)) && Indifferent(Render(pieces))
  {
    var t := Render(pieces);
    PlainSettled(pieces);
    hide Nests, Filled, Render, Settled, Lists, NoBraces;
    forall a: Values, b: Values, m: map<string, seq<Byte>>
      | Lists(a, m) && Lists(b, m) && (forall name :: name in m ==> NoBraces(name))
      ensures Filled(t, a) == Filled(t, b)
    {
      PathForSubstitutes(pieces, a, m);
      PathForSubstitutes(pieces, b, m);
    }
    OrderMattersExactlyWhenNested(t);
  }

  lemma {:induction false} PlainSettled(pieces: seq<Piece>)
    requires forall i :: 0 <= i < |pieces| ==> pieces[i] != Open
    ensures Settled(pieces)
  {
    if pieces != [] {
      PlainSettled(pieces[1..]);
    }
  }

  // ---------- names that hold braces ----------

  predicate Braced(t: string, i: nat, j: nat) {
    i < j < |t| && t[i] == '{' && t[j] == '}'
  }

  /** At most one `{` and one `}` after it, whatever stands in between. */
  ghost predicate OnePair(t: string) {
    forall i: nat, j: nat, k: nat, l: nat :: Braced(t, i, j) && Braced(t, k, l) ==> i == k && j == l
  }

  /** Order makes no difference even for names that hold braces themselves. */
  ghost predicate Oblivious(t: string) {
    forall a: Values, b: Values, m: map<string, seq<Byte>> ::
      Lists(a, m) && Lists(b, m) ==> Filled(t, a) == Filled(t, b)
  }

  predicate At(s: string, what: string, p: nat) {
    p + |what| <= |s| && s[p..p + |what|] == what
  }

  lemma {:induction false} Absent(s: string, what: string, with: string)
    requires what != "" && forall p: nat :: !At(s, what, p)
    ensures Replace(s, what, with) == s
  {
    if |s| >= |what| {
      var rest := s[1..];
      forall p: nat
        ensures !At(rest, what, p)
      {
        assert !At(s, what, p + 1);
        assert p + |what| <= |rest| ==> rest[p..p + |what|] == s[p + 1..p + 1 + |what|];
      }
      Absent(rest, what, with);
      assert !At(s, what, 0);
      assert s[0..|what|] == s[..|what|];
      assert s == [s[0]] + rest;
    }
  }

  /** Where a placeholder stands, its braces do. */
  lemma BracedThere(s: string, name: string, p: nat)
    requires At(s, "{" + name + "}", p)
    ensures Braced(s, p, p + |name| + 1) && s[p + 1..p + |name| + 1] == name
  {
    var what, sub := "{" + name + "}", s[p..p + |name| + 2];
    assert s[p] == sub[0] && s[p + |name| + 1] == sub[|name| + 1];
    assert s[p + 1..p + |name| + 1] == sub[1..|name| + 1] == what[1..|name| + 1] == name;
  }

  lemma AbsentName(s: string, name: string, with: string)
    requires forall i: nat, j: nat :: Braced(s, i, j) ==> s[i + 1..j] != name
    ensures Replace(s, "{" + name + "}", with) == s
  {
    var what := "{" + name + "}";
    forall p: nat
      ensures !At(s, what, p)
    {
      if At(s, what, p) {
        BracedThere(s, name, p);
      }
    }
    Absent(s, what, with);
  }

  lemma PresentName(pre: string, name: string, tail: string, with: string)
    requires '{' !in pre && '}' !in tail
    ensures Replace(pre + ("{" + name + "}" + tail), "{" + name + "}", with) == pre + (with + tail)
  {
    var what := "{" + name + "}";
    var s := what + tail;
    PassOver(pre, s, name, with);
    assert s[..|what|] == what && s[|what|..] == tail;
    AbsentName(tail, name, with);
  }

  lemma {:induction false} NothingToFill(t: string, values: Values)
    requires forall i: nat, j: nat :: !Braced(t, i, j)
    ensures Filled(t, values) == t
  {
    if values != [] {
      NothingToFill(t, values[..|values| - 1]);
      AbsentName(t, values[|values| - 1].0, Quote(values[|values| - 1].1));
    }
  }

  lemma NoPairLeft(pre: string, value: seq<Byte>, tail: string)
    requires '{' !in pre && '}' !in tail
    ensures forall i: nat, j: nat :: !Braced(pre + (Quote(value) + tail), i, j)
  {
    QuotePlain(value);
    var q := Quote(value);
    var s := pre + (q + tail);
    assert forall k :: 0 <= k < |pre| ==> s[k] == pre[k] && s[k] in pre;
    assert forall k :: |pre| <= k < |pre| + |q| ==> s[k] == q[k - |pre|];
    assert forall k :: |pre| + |q| <= k < |s| ==> s[k] == tail[k - |pre| - |q|] && s[k] in tail;
  }

  /** With one pair of braces only its own name is ever filled. */
  lemma {:induction false} OneFilled(pre: string, own: string, tail: string, values: Values)
    requires '{' !in pre && '}' !in tail && OnePair(pre + ("{" + own + "}" + tail))
    requires forall a, b :: 0 <= a < b < |values| ==> values[a].0 != values[b].0
    ensures var t := pre + ("{" + own + "}" + tail);
            && ((forall k :: 0 <= k < |values| ==> values[k].0 != own) ==> Filled(t, values) == t)
            && forall k :: 0 <= k < |values| && values[k].0 == own ==>
                 Filled(t, values) == pre + (Quote(values[k].1) + tail)
  {
    hide Replace, Quote, OnePair;
    var t := pre + ("{" + own + "}" + tail);
    if values != [] {
      var rest, last := values[..|values| - 1], values[|values| - 1];
      OneFilled(pre, own, tail, rest);
      FilledLast(t, values);
      assert forall k :: 0 <= k < |rest| ==> rest[k] == values[k] && rest[k].0 != last.0;
      if last.0 == own {
        PresentName(pre, own, tail, Quote(last.1));
      } else if k :| 0 <= k < |rest| && rest[k].0 == own {
        NothingMore(pre, rest[k].1, tail, last);
      } else {
        OtherNames(pre, own, tail, last.0);
        AbsentName(t, last.0, Quote(last.1));
      }
    }
  }

  lemma FilledLast(t: string, values: Values)
    requires values != []
    ensures var rest, last := values[..|values| - 1], values[|values| - 1];
            Filled(t, values) == Replace(Filled(t, rest), "{" + last.0 + "}", Quote(last.1))
  {
  }

  lemma NothingMore(pre: string, value: seq<Byte>, tail: string, last: (string, seq<Byte>))
    requires '{' !in pre && '}' !in tail
    ensures var t := pre + (Quote(value) + tail); Replace(t, "{" + last.0 + "}", Quote(last.1)) == t
  {
    hide Replace, Quote;
    NoPairLeft(pre, value, tail);
    AbsentName(pre + (Quote(value) + tail), last.0, Quote(last.1));
  }

  lemma OtherNames(pre: string, own: string, tail: string, name: string)
    requires OnePair(pre + ("{" + own + "}" + tail)) && name != own
    ensures var t := pre + ("{" + own + "}" + tail);
            forall i: nat, j: nat :: Braced(t, i, j) ==> t[i + 1..j] != name
  {
    var t, p := pre + ("{" + own + "}" + tail), |pre|;
    assert t[p..p + |own| + 2] == "{" + own + "}";
    assert At(t, "{" + own + "}", p);
    BracedThere(t, own, p);
  }

  /** Where the first `{` and the last `}` stand. */
  lemma {:induction false} Outermost(t: string) returns (i: nat, j: nat)
    requires exists k: nat, l: nat :: Braced(t, k, l)
    ensures Braced(t, i, j) && '{' !in t[..i] && '}' !in t[j + 1..]
  {
    var k: nat, l: nat :| Braced(t, k, l);
    i := FirstOf(t, k);
    j := LastOf(t, l);
  }

  lemma {:induction false} FirstOf(t: string, k: nat) returns (i: nat)
    requires k < |t| && t[k] == '{'
    ensures i <= k && t[i] == '{' && '{' !in t[..i]
    decreases k
  {
    if n :| 0 <= n < k && t[n] == '{' {
      i := FirstOf(t, n);
    } else {
      i := k;
    }
  }

  lemma {:induction false} LastOf(t: string, l: nat) returns (j: nat)
    requires l < |t| && t[l] == '}'
    ensures l <= j < |t| && t[j] == '}' && '}' !in t[j + 1..]
    decreases |t| - l
  {
    if n :| l < n < |t| && t[n] == '}' {
      j := LastOf(t, n);
    } else {
      j := l;
    }
  }

  lemma AroundPair(t: string, i: nat, j: nat)
    requires Braced(t, i, j)
    ensures t == t[..i] + ("{" + t[i + 1..j] + "}" + t[j + 1..])
  {
  }

  /** Text after the last `}` is out of any placeholder's reach. */
  lemma {:induction false} TailOver(s: string, tail: string, name: string, with: string)
    requires '}' !in tail
    ensures Replace(s + tail, "{" + name + "}", with) == Replace(s, "{" + name + "}", with) + tail
  {
    var what, all := "{" + name + "}", s + tail;
    if |s| < |what| {
      assert forall k :: |s| <= k < |all| ==> all[k] == tail[k - |s|] && all[k] in tail;
      AbsentName(all, name, with);
    } else {
      assert all[..|what|] == s[..|what|];
      var rest := if s[..|what|] == what then s[|what|..] else s[1..];
      assert all[if s[..|what|] == what then |what| else 1..] == rest + tail;
      TailOver(rest, tail, name, with);
    }
  }

  /** A template `pre {whole} tail` without the placeholders of an inner name is too short for the outer. */
  lemma InnerFirstLeaves(pre: string, whole: string, tail: string, inner: string, at: nat)
    requires '{' !in pre && '}' !in tail && |inner| < |whole| && At("{" + whole + "}", "{" + inner + "}", at)
    ensures var t := pre + ("{" + whole + "}" + tail);
            var left := Replace(t, "{" + inner + "}", "");
            |left| <= |t| && forall with :: Replace(left, "{" + whole + "}", with) == left
  {
    hide Replace;
    var core, what := "{" + whole + "}", "{" + inner + "}";
    var kept := Replace(core, what, "");
    TakenOut(core, what, at);
    TailOver(core, tail, inner, "");
    PassOver(pre, core + tail, inner, "");
    TooShortInside(pre, kept, tail, whole);
  }

  lemma TooShortInside(pre: string, kept: string, tail: string, whole: string)
    requires '{' !in pre && '}' !in tail && |kept| < |whole| + 2
    ensures forall with :: Replace(pre + (kept + tail), "{" + whole + "}", with) == pre + (kept + tail)
  {
    var left := pre + (kept + tail);
    assert forall k :: 0 <= k < |pre| ==> left[k] == pre[k] && left[k] in pre;
    assert forall k :: |pre| + |kept| <= k < |left| ==> left[k] == tail[k - |pre| - |kept|] && left[k] in tail;
    forall with
      ensures Replace(left, "{" + whole + "}", with) == left
    {
      AbsentName(left, whole, with);
    }
  }

  lemma OuterFirstFills(pre: string, whole: string, tail: string, inner: string, value: seq<Byte>)
    requires '{' !in pre && '}' !in tail
    ensures var t := pre + ("{" + whole + "}" + tail);
            Filled(t, [(whole, value), (inner, [])]) == pre + (Quote(value) + tail)
  {
    var t, one, two := pre + ("{" + whole + "}" + tail), (whole, value), (inner, []);
    FilledAfter(t, one, [two]);
    OneName(t, one);
    PresentName(pre, whole, tail, Quote(value));
    NoPairLeft(pre, value, tail);
    NothingToFill(pre + (Quote(value) + tail), [two]);
    assert [one] + [two] == [one, two];
  }

  /** The two orders of an outer name's long value and an inner name's empty one. */
  lemma OrdersDiffer(pre: string, whole: string, tail: string, inner: string, at: nat, long: seq<Byte>)
    requires '{' !in pre && '}' !in tail && |inner| < |whole| && At("{" + whole + "}", "{" + inner + "}", at)
    requires |long| > |pre| + |whole| + |tail| + 2
    ensures var t := pre + ("{" + whole + "}" + tail);
            Filled(t, [(whole, long), (inner, [])]) != Filled(t, [(inner, []), (whole, long)])
  {
    hide Filled, Replace, Quote, At;
    var t := pre + ("{" + whole + "}" + tail);
    OuterFirstFills(pre, whole, tail, inner, long);
    QuoteLength(long);
    InnerFirstLeaves(pre, whole, tail, inner, at);
    InnerThenOuter(t, (inner, []), (whole, long));
  }

  /** A second pair of braces lies within the outermost one, around a shorter name. */
  lemma Within(t: string, i: nat, j: nat, k: nat, l: nat)
    requires Braced(t, i, j) && '{' !in t[..i] && '}' !in t[j + 1..]
    requires Braced(t, k, l) && !(k == i && l == j)
    ensures i <= k && l <= j && l - k < j - i
    ensures At("{" + t[i + 1..j] + "}", "{" + t[k + 1..l] + "}", k - i)
  {
    var pre, tail := t[..i], t[j + 1..];
    assert forall x :: 0 <= x < i ==> t[x] == pre[x] && t[x] in pre;
    assert forall x :: j < x < |t| ==> t[x] == tail[x - j - 1] && t[x] in tail;
    InnerAt(t, i, j, k, l);
  }

  lemma PairsDiffer(t: string, i: nat, j: nat, k: nat, l: nat) returns (a: Values, b: Values, m: map<string, seq<Byte>>)
    requires Braced(t, i, j) && '{' !in t[..i] && '}' !in t[j + 1..]
    requires Braced(t, k, l) && !(k == i && l == j)
    ensures Lists(a, m) && Lists(b, m) && Filled(t, a) != Filled(t, b)
  {
    hide Filled, Lists, At;
    var whole, inner, long := t[i + 1..j], t[k + 1..l], seq(|t| + 1, _ => 97);
    a, b, m := [(whole, long), (inner, [])], [(inner, []), (whole, long)], map[whole := long, inner := []];
    AroundPair(t, i, j);
    Within(t, i, j, k, l);
    BothListed(whole, long, inner);
    OrdersDiffer(t[..i], whole, t[j + 1..], inner, k - i, long);
  }

  lemma InnerThenOuter(t: string, inner: (string, seq<Byte>), outer: (string, seq<Byte>))
    requires inner.1 == []
    ensures Filled(t, [inner, outer])
            == Replace(Replace(t, "{" + inner.0 + "}", ""), "{" + outer.0 + "}", Quote(outer.1))
  {
    hide Replace;
    FilledAfter(t, inner, [outer]);
    OneName(t, inner);
    NothingQuoted();
    OneName(Filled(t, [inner]), outer);
    assert [inner] + [outer] == [inner, outer];
  }

  lemma NothingQuoted()
    ensures Quote([]) == ""
  {
  }

  lemma InnerAt(t: string, i: nat, j: nat, k: nat, l: nat)
    requires Braced(t, i, j) && Braced(t, k, l) && i <= k && l <= j
    ensures At("{" + t[i + 1..j] + "}", "{" + t[k + 1..l] + "}", k - i)
  {
    PairShown(t, i, j);
    PairShown(t, k, l);
    var outer, inner := t[i..j + 1], t[k..l + 1];
    assert forall x :: 0 <= x < |inner| ==> inner[x] == outer[k - i + x];
    assert outer[k - i..k - i + |inner|] == inner;
  }

  lemma PairShown(t: string, i: nat, j: nat)
    requires Braced(t, i, j)
    ensures "{" + t[i + 1..j] + "}" == t[i..j + 1]
  {
  }

  lemma BothListed(x: string, v: seq<Byte>, y: string)
    requires x != y
    ensures Lists([(x, v), (y, [])], map[x := v, y := []]) && Lists([(y, []), (x, v)], map[x := v, y := []])
  {
    var a: Values, b: Values := [(x, v), (y, [])], [(y, []), (x, v)];
    assert a[0].0 == x == b[1].0 && a[1].0 == y == b[0].0;
  }

  /** For names of any kind, the order of the values makes no difference, whatever they are, exactly when
      the template has no more than one `{` with a `}` behind it, each way. */
  lemma OrderMattersExactlyWithTwoPairs(t: string)
    ensures Oblivious(t) <==> OnePair(t)
  {
    if OnePair(t) {
      forall a: Values, b: Values, m: map<string, seq<Byte>> | Lists(a, m) && Lists(b, m)
        ensures Filled(t, a) == Filled(t, b)
      {
        OnePairIndifferent(t, a, b, m);
      }
    } else {
      var i0: nat, j0: nat, k0: nat, l0: nat :| Braced(t, i0, j0) && Braced(t, k0, l0) && !(i0 == k0 && j0 == l0);
      var i, j := Outermost(t);
      var a, b, m := PairsDiffer(t, i, j, if i0 == i && j0 == j then k0 else i0, if i0 == i && j0 == j then l0 else j0);
    }
  }

  lemma OnePairIndifferent(t: string, a: Values, b: Values, m: map<string, seq<Byte>>)
    requires OnePair(t) && Lists(a, m) && Lists(b, m)
    ensures Filled(t, a) == Filled(t, b)
  {
    if exists k: nat, l: nat :: Braced(t, k, l) {
      var i, j := Outermost(t);
      AroundPair(t, i, j);
      var own := t[i + 1..j];
      OneFilled(t[..i], own, t[j + 1..], a);
      OneFilled(t[..i], own, t[j + 1..], b);
      if own in m {
        var k :| 0 <= k < |a| && a[k].0 == own;
        var l :| 0 <= l < |b| && b[l].0 == own;
      }
    } else {
      NothingToFill(t, a);
      NothingToFill(t, b);
    }
  }

  /** With braces inside braces the order decides: `{{x}y}` filled with `x` first makes a placeholder for
      `1y`, which is then filled in turn; filled the other way round it stays. */
  lemma NestedBracesDependOnOrder()
    ensures Filled("{{x}y}", [("x", [49]), ("1y", [50])]) == "2"
    ensures Filled("{{x}y}", [("1y", [50]), ("x", [49])]) == "{1y}"
  {
    var x, y: (string, seq<Byte>) := ("x", [49]), ("1y", [50]);
    assert [x, y][..1] == [x] && [y, x][..1] == [y];
    OneByte(49);
    OneByte(50);
    OneName("{{x}y}", x);
    OneName("{{x}y}", y);
    InnerFirst();
    OuterMissing();
    OuterThen();
    hide Replace, Quote;
    assert "{" + "x" + "}" == "{x}" && "{" + "1y" + "}" == "{1y}";
  }

  lemma OneByte(b: Byte)
    requires b in {49, 50}
    ensures Quote([b]) == [b as char]
  {
    assert [b][1..] == [];
  }

  lemma InnerFirst()
    ensures Replace("{{x}y}", "{x}", "1") == "{1y}"
  {
    var t := "{{x}y}";
    assert t[..3] == "{{x" && t[1..] == "{x}y}" && t[1..][..3] == "{x}" && t[1..][3..] == "y}";
    TooShort("y}", "{x}", "1");
    assert ['{'] + ("1" + "y}") == "{1y}";
  }

  lemma OuterMissing()
    ensures Replace("{{x}y}", "{1y}", "2") == "{{x}y}"
  {
    var t := "{{x}y}";
    assert t[..4][1] == '{' && t[1..] == "{x}y}";
    assert t[1..][..4][1] == 'x' && t[1..][1..] == "x}y}";
    PassOver("x}y}", "", "1y", "2");
    assert "x}y}" + "" == "x}y}";
    TooShort("", "{1y}", "2");
  }

  lemma OuterThen()
    ensures Replace("{1y}", "{1y}", "2") == "2"
  {
    var u := "{1y}";
    assert u[..4] == u && u[4..] == "";
    TooShort("", "{1y}", "2");
    assert "2" + "" == "2";
  }

  lemma OneName(t: string, v: (string, seq<Byte>))
    ensures Filled(t, [v]) == Replace(t, "{" + v.0 + "}", Quote(v.1))
  {
    assert [v][..0] == [];
    assert Filled(t, []) == t;
  }

  // ---------- segments ----------

  /** A path's segments. */
  function Split(s: string): (segments: seq<string>)
    ensures segments != []
  {
    if s == "" then [""]
    else
      var rest := Split(s[1..]);
      if s[0] == '/' then [""] + rest else [[s[0]] + rest[0]] + rest[1..]
  }

  predicate NoSlash(s: string) {
    '/' !in s
  }

  /** A route's pieces, segment by segment. */
  function Joined(route: seq<seq<Piece>>): seq<Piece>
    requires route != []
  {
    if |route| == 1 then route[0] else route[0] + [Text("/")] + Joined(route[1..])
  }

  ghost predicate Segment(pieces: seq<Piece>) {
    forall i :: 0 <= i < |pieces| ==> WellFormed(pieces[i]) && NoSlash(Shown(pieces[i]))
  }

  lemma {:induction false} SplitOne(s: string)
    requires NoSlash(s)
    ensures Split(s) == [s]
  {
    if s != "" {
      SplitOne(s[1..]);
      assert [s[0]] + s[1..] == s;
    }
  }

  lemma {:induction false} SplitTwo(s: string, rest: string)
    requires NoSlash(s)
    ensures Split(s + "/" + rest) == [s] + Split(rest)
  {
    var all := s + "/" + rest;
    if s == "" {
      assert all[1..] == rest;
    } else {
      SplitTwo(s[1..], rest);
      assert all[1..] == s[1..] + "/" + rest;
      assert [s[0]] + s[1..] == s;
    }
  }

  lemma RenderStep(p: Piece, rest: seq<Piece>)
    ensures Render([p] + rest) == Shown(p) + Render(rest)
  {
    assert ([p] + rest)[1..] == rest;
  }

  lemma RenderNothing()
    ensures Render([]) == ""
  {
  }

  lemma {:induction false} RenderJoins(a: seq<Piece>, b: seq<Piece>)
    ensures Render(a + b) == Render(a) + Render(b)
  {
    hide Render, Shown;
    if a == [] {
      RenderNothing();
      assert a + b == b;
    } else {
      var p, rest := a[0], a[1..];
      RenderJoins(rest, b);
      RenderStep(p, rest);
      RenderStep(p, rest + b);
      assert a == [p] + rest && a + b == [p] + (rest + b);
      Associate(Shown(p), Render(rest), Render(b));
    }
  }

  lemma Associate(p: string, q: string, r: string)
    ensures p + (q + r) == (p + q) + r
  {
  }

  lemma JoinedSubstituted(route: seq<seq<Piece>>, m: map<string, seq<Byte>>)
    requires |route| > 1
    ensures Substituted(Joined(route), m)
            == Substituted(route[0], m) + ([Text("/")] + Substituted(Joined(route[1..]), m))
  {
  }

  lemma {:induction false} RenderNoSlash(pieces: seq<Piece>, m: map<string, seq<Byte>>)
    requires Segment(pieces)
    ensures NoSlash(Render(Substituted(pieces, m)))
  {
    if pieces != [] {
      hide Quote;
      var rest := pieces[1..];
      RenderNoSlash(rest, m);
      assert Substituted(pieces, m) == [Meant(pieces[0], m)] + Substituted(rest, m);
      RenderStep(Meant(pieces[0], m), Substituted(rest, m));
      ShownNoSlash(pieces[0], m);
    }
  }

  lemma ShownNoSlash(p: Piece, m: map<string, seq<Byte>>)
    requires Segment([p])
    ensures NoSlash(Shown(Meant(p, m)))
  {
    assert [p][0] == p;
    if p.Hole? && p.name in m {
      QuotePlain(m[p.name]);
    }
  }

  lemma {:induction false} SegmentsApart(route: seq<seq<Piece>>, m: map<string, seq<Byte>>)
    requires route != [] && forall i :: 0 <= i < |route| ==> Segment(route[i])
    ensures var segments := Split(Render(Substituted(Joined(route), m)));
            && |segments| == |route|
            && forall i :: 0 <= i < |route| ==> segments[i] == Render(Substituted(route[i], m))
  {
    hide Render, Split, Substituted, Joined, Segment;
    var first := Substituted(route[0], m);
    RenderNoSlash(route[0], m);
    if |route| == 1 {
      OnlyRoute(route);
      SplitOne(Render(first));
    } else {
      var tail := Substituted(Joined(route[1..]), m);
      SegmentsApart(route[1..], m);
      JoinedSubstituted(route, m);
      RenderJoins(first, [Text("/")] + tail);
      RenderStep(Text("/"), tail);
      assert Render(first) + ("/" + Render(tail)) == Render(first) + "/" + Render(tail);
      SplitTwo(Render(first), Render(tail));
    }
  }

  lemma OnlyRoute(route: seq<seq<Piece>>)
    requires |route| == 1
    ensures Joined(route) == route[0]
  {
  }

  /** Filling keeps the segments of a route apart: as many as it has, each its own pieces filled. */
  lemma SegmentsKept(route: seq<seq<Piece>>, values: Values, m: map<string, seq<Byte>>)
    requires route != [] && (forall i :: 0 <= i < |route| ==> Segment(route[i])) && Settled(Joined(route))
    requires Lists(values, m) && forall name :: name in m ==> NoBraces(name)
    ensures var segments := Split(Filled(Render(Joined(route)), values));
            && |segments| == |route|
            && forall i :: 0 <= i < |route| ==> segments[i] == Render(Substituted(route[i], m))
  {
    hide Filled, Split, Render, Settled, Lists, NoBraces, Segment;
    SegmentsApart(route, m);
    JoinedWellFormed(route);
    PathForSubstitutes(Joined(route), values, m);
  }

  lemma {:induction false} JoinedWellFormed(route: seq<seq<Piece>>)
    requires route != [] && forall i :: 0 <= i < |route| ==> Segment(route[i])
    ensures AllWellFormed(Joined(route))
  {
    if |route| > 1 {
      JoinedWellFormed(route[1..]);
    }
  }

  /** A value that fills a whole segment can be read back from it, whatever bytes it holds. */
  lemma WholeSegmentReadsBack(route: seq<seq<Piece>>, values: Values, m: map<string, seq<Byte>>, i: nat, name: string)
    requires i < |route| && (forall k :: 0 <= k < |route| ==> Segment(route[k])) && Settled(Joined(route))
    requires Lists(values, m) && forall x :: x in m ==> NoBraces(x)
    requires route[i] == [Hole(name)] && name in m
    ensures |Split(Filled(Render(Joined(route)), values))| == |route|
    ensures Unquote(Split(Filled(Render(Joined(route)), values))[i]) == Some(m[name])
  {
    hide Filled, Split, Render, Settled, Lists, NoBraces, Segment;
    SegmentsKept(route, values, m);
    QuoteRoundTrips(m[name]);
    OneHole(name, m);
  }

  lemma OneHole(name: string, m: map<string, seq<Byte>>)
    requires name in m
    ensures Render(Substituted([Hole(name)], m)) == Quote(m[name])
  {
    var filled := Substituted([Hole(name)], m);
    assert filled == [Text(Quote(m[name]))];
    assert filled[1..] == [];
    assert Quote(m[name]) + "" == Quote(m[name]);
  }
}
