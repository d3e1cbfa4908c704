/**
 * DOT bodies (dot_parser.py), as a function of a token list: what parsing yields, what it keeps, and that
 * parsing the printed form of a list of statements means what the statements mean.
 */
module DotSyntax {
  import opened Prelude

  type Attrs = map<string, string>

  datatype NodeRecord = NodeRecord(id: string, shape: string, labelText: string, kind: string, prompt: string, attrs: Attrs)

  datatype EdgeRecord = EdgeRecord(source: string, target: string, labelText: string, condition: string, weight: int, attrs: Attrs)

  /** `_ParseContext`: what has been accumulated. Attribute values are held as their text. */
  datatype Parse = Parse(
    nodes: map<string, NodeRecord>,
    edges: seq<EdgeRecord>,
    graphAttrs: Attrs,
    graphFields: Attrs,
    nodeDefaults: Attrs,
    edgeDefaults: Attrs)

  /** How single tokens read: attribute values, weights, durations, class names. A missing one is a parse error. */
  datatype Lexicon = Lexicon(
    value: (string, string) -> string,
    weight: string -> Option<int>,
    duration: string -> Option<string>,
    className: string -> string)

  // ---------------------------------------------------------------------------
  // Tokens
  // ---------------------------------------------------------------------------

  predicate IsLetter(c: char) {
    'a' <= c <= 'z' || 'A' <= c <= 'Z' || c == '_'
  }

  predicate IsIdentifier(t: string) {
    t != "" && IsLetter(t[0]) && forall i :: 0 <= i < |t| ==> IsLetter(t[i]) || '0' <= t[i] <= '9' || t[i] == '.'
  }

  function Unquoted(raw: string): string {
    if |raw| >= 2 && raw[0] == '"' && raw[|raw| - 1] == '"' then raw[1..|raw| - 1] else raw
  }

  /** The token that closes what is open from `i` on, or the last one. */
  function Close(ts: seq<string>, i: nat, depth: int, open: string, close: string): (j: nat)
    requires i <= |ts| && ts != []
    ensures j < |ts| && (i < |ts| ==> i <= j)
    decreases |ts| - i
  {
    if i == |ts| then |ts| - 1
    else if ts[i] == open then Close(ts, i + 1, depth + 1, open, close)
    else if ts[i] == close && depth == 1 then i
    else if ts[i] == close then Close(ts, i + 1, depth - 1, open, close)
    else Close(ts, i + 1, depth, open, close)
  }

  /** The pairs of an attribute block between `i` and its closing bracket, later ones overwriting in place. */
  function PairsFrom(lex: Lexicon, ts: seq<string>, i: nat, end: nat, pairs: Assoc<string, string>): Assoc<string, string>
    requires end < |ts|
    decreases if i < end then end - i else 0
  {
    if i >= end then pairs
    else if ts[i] == "," || ts[i] == ";" then PairsFrom(lex, ts, i + 1, end, pairs)
    else if i + 2 <= end && ts[i + 1] == "=" then
      var key := Unquoted(ts[i]);
      PairsFrom(lex, ts, i + 3, end, Assign(pairs, key, lex.value(key, ts[i + 2])))
    else PairsFrom(lex, ts, i + 1, end, pairs)
  }

  /** Where the attribute block opening at the front ends, and what it holds. */
  function BlockEnd(ts: seq<string>): (j: nat)
    requires ts != []
    ensures j < |ts|
  {
    Close(ts, 0, 0, "[", "]")
  }

  function Block(lex: Lexicon, ts: seq<string>): Assoc<string, string>
    requires ts != []
  {
    PairsFrom(lex, ts, 1, BlockEnd(ts), [])
  }

  function AsMap(pairs: Assoc<string, string>): Attrs {
    if pairs == [] then map[] else AsMap(pairs[..|pairs| - 1])[pairs[|pairs| - 1].0 := pairs[|pairs| - 1].1]
  }

  // ---------------------------------------------------------------------------
  // Effects of statements
  // ---------------------------------------------------------------------------

  function Field(attrs: Attrs, key: string, default: string): string {
    if key in attrs then attrs[key] else default
  }

  const NodeFields := {"shape", "label", "type", "prompt"}
  const EdgeFields := {"label", "condition", "weight"}

  /** A node met in an edge gets the defaults in force, if it is new. */
  function Ensure(c: Parse, id: string): Parse {
    if id in c.nodes then c
    else
      var d := c.nodeDefaults;
      c.(nodes := c.nodes[id := NodeRecord(id, Field(d, "shape", "box"), Field(d, "label", ""), Field(d, "type", ""),
                                           Field(d, "prompt", ""), d - NodeFields)])
  }

  function Kept(old_: string, new_: string): string {
    if new_ != "" then new_ else old_
  }

  /** A declaration creates a node or updates it in place. */
  function Declared(c: Parse, id: string, explicit: Attrs): Parse {
    var m := c.nodeDefaults + explicit;
    var shape, text := Field(m, "shape", "box"), Field(m, "label", "");
    var kind, prompt := Field(m, "type", ""), Field(m, "prompt", "");
    var rest := m - NodeFields;
    if id in c.nodes then
      var n := c.nodes[id];
      c.(nodes := c.nodes[id := NodeRecord(n.id, if shape != "box" || "shape" in explicit then shape else n.shape,
                                           Kept(n.labelText, text), Kept(n.kind, kind), Kept(n.prompt, prompt), n.attrs + rest)])
    else c.(nodes := c.nodes[id := NodeRecord(id, shape, text, kind, prompt, rest)])
  }

  /** One edge of a chain; nothing when its weight does not read as a number. */
  function Joined(lex: Lexicon, c: Parse, from_: string, to_: string, attrs: Attrs): Option<Parse> {
    var m := c.edgeDefaults + attrs;
    var weight := if "weight" in m then lex.weight(m["weight"]) else Some(0);
    var e := Ensure(Ensure(c, from_), to_);
    if weight.None? then None
    else
      Some(e.(edges := e.edges + [EdgeRecord(from_, to_, Field(m, "label", ""), Field(m, "condition", ""), weight.value, m - EdgeFields)]))
  }

  function Chained(lex: Lexicon, c: Parse, ids: seq<string>, attrs: Attrs): Option<Parse>
    decreases |ids|
  {
    if |ids| < 2 then Some(c)
    else
      var first := Joined(lex, c, ids[0], ids[1], attrs);
      if first.None? then None else Chained(lex, first.value, ids[1..], attrs)
  }

  /** Where a graph attribute is kept: as it is, promoted to a field, or promoted and read as a duration. */
  datatype Place = Attribute | Promoted(name: string) | Duration

  function PlaceOf(key: string): Place {
    if key == "goal" || key == "model_stylesheet" then Promoted(key)
    else if key == "default_max_retry" || key == "default_max_retries" then Promoted("default_max_retry")
    else if key == "max_pipeline_duration" then Duration
    else Attribute
  }

  /** `_set_graph_attr`. */
  function Set(lex: Lexicon, c: Parse, key: string, value: string): Option<Parse> {
    match PlaceOf(key)
    case Attribute => Some(c.(graphAttrs := c.graphAttrs[key := value]))
    case Promoted(name) => Some(c.(graphFields := c.graphFields[name := value]))
    case Duration =>
      var d := lex.duration(value);
      if d.Some? then Some(c.(graphFields := c.graphFields[key := d.value])) else None
  }

  /** All entries of a graph block, in the order of the block. */
  function SetPairs(lex: Lexicon, c: Parse, pairs: Assoc<string, string>): Option<Parse>
    decreases |pairs|
  {
    if pairs == [] then Some(c)
    else
      var first := Set(lex, c, pairs[0].0, pairs[0].1);
      if first.None? then None else SetPairs(lex, first.value, pairs[1..])
  }

  /** New nodes of a subgraph take its class, unless they have one. */
  function Classed(nodes: map<string, NodeRecord>, before: set<string>, name: string): map<string, NodeRecord> {
    map id | id in nodes ::
      if id in before || Field(nodes[id].attrs, "class", "") != "" then nodes[id]
      else nodes[id].(attrs := nodes[id].attrs["class" := name])
  }

  /** The end of a subgraph: its label becomes a class, node defaults are as before it. */
  function CloseSubgraph(lex: Lexicon, before: Parse, c: Parse): Parse {
    var text := Field(c.graphAttrs, "label", "");
    var name := if text != "" then lex.className(text) else "";
    c.(nodes := if name != "" then Classed(c.nodes, before.nodes.Keys, name) else c.nodes,
       graphAttrs := c.graphAttrs - {"label"},
       nodeDefaults := before.nodeDefaults)
  }

  // ---------------------------------------------------------------------------
  // Parsing
  // ---------------------------------------------------------------------------

  predicate Opens(ts: seq<string>, t: string) {
    ts != [] && ts[0] == t
  }

  /** The further ids of an edge chain, after the first. */
  function Links(ts: seq<string>): (r: seq<string>)
    ensures 2 * |r| <= |ts|
  {
    if |ts| >= 2 && ts[0] == "->" then [ts[1]] + Links(ts[2..]) else []
  }

  /** An optional attribute block, and what is left after it. */
  function OptionalBlock(lex: Lexicon, ts: seq<string>): (r: (Attrs, seq<string>))
    ensures |r.1| <= |ts|
  {
    if Opens(ts, "[") then (AsMap(Block(lex, ts)), ts[BlockEnd(ts) + 1..]) else (map[], ts)
  }

  function BraceEnd(ts: seq<string>): (j: nat)
    requires ts != []
    ensures j < |ts|
  {
    Close(ts, 0, 0, "{", "}")
  }

  /** One statement that is not a subgraph: what it adds, and what is left to parse. */
  function Statement(lex: Lexicon, ts: seq<string>, c: Parse): (r: Option<(Parse, seq<string>)>)
    requires ts != [] && ts[0] != "subgraph" && ts[0] != ";"
    ensures r.Some? ==> |r.value.1| < |ts|
  {
    if ts[0] == "graph" && Opens(ts[1..], "[") then
      var set_ := SetPairs(lex, c, Block(lex, ts[1..]));
      if set_.None? then None else Some((set_.value, ts[1..][BlockEnd(ts[1..]) + 1..]))
    else if ts[0] == "node" && Opens(ts[1..], "[") then
      Some((c.(nodeDefaults := c.nodeDefaults + AsMap(Block(lex, ts[1..]))), ts[1..][BlockEnd(ts[1..]) + 1..]))
    else if ts[0] == "edge" && Opens(ts[1..], "[") then
      Some((c.(edgeDefaults := c.edgeDefaults + AsMap(Block(lex, ts[1..]))), ts[1..][BlockEnd(ts[1..]) + 1..]))
    else if !IsIdentifier(ts[0]) then Some((c, ts[1..]))
    else if Opens(ts[1..], "->") then
      var links := Links(ts[1..]);
      var (attrs, rest) := OptionalBlock(lex, ts[1 + 2 * |links|..]);
      var chained := Chained(lex, c, [ts[0]] + links, attrs);
      if chained.None? then None else Some((chained.value, rest))
    else if Opens(ts[1..], "=") then
      if |ts| < 3 then None
      else
        var set_ := Set(lex, c, ts[0], lex.value("", ts[2]));
        if set_.None? then None else Some((set_.value, ts[3..]))
    else
      var (attrs, rest) := OptionalBlock(lex, ts[1..]);
      Some((Declared(c, ts[0], attrs), rest))
  }

  /** A subgraph's header is optional-name and brace; what follows the keyword and the name. */
  function AfterName(ts: seq<string>): (r: seq<string>)
    requires ts != []
    ensures |r| < |ts|
  {
    if |ts| > 1 && IsIdentifier(ts[1]) then ts[2..] else ts[1..]
  }

  function BodyOf(ts: seq<string>): (r: seq<string>)
    requires ts != []
    ensures |r| < |ts|
  {
    var end := BraceEnd(ts);
    if end >= 1 then ts[1..end] else []
  }

  /** Everything a token list adds to what has been parsed; nothing when it is rejected. */
  function ParseTokens(lex: Lexicon, ts: seq<string>, c: Parse): Option<Parse>
    decreases |ts|
  {
    if ts == [] then Some(c)
    else if ts[0] == ";" then ParseTokens(lex, ts[1..], c)
    else if ts[0] == "subgraph" then
      var rest := AfterName(ts);
      if Opens(rest, "{") then
        var inner := ParseTokens(lex, BodyOf(rest), c);
        if inner.None? then None else ParseTokens(lex, rest[BraceEnd(rest) + 1..], CloseSubgraph(lex, c, inner.value))
      else ParseTokens(lex, rest, c)
    else
      var s := Statement(lex, ts, c);
      if s.None? then None else ParseTokens(lex, s.value.1, s.value.0)
  }

  // ---------------------------------------------------------------------------
  // What every parse keeps
  // ---------------------------------------------------------------------------

  /** Every node is stored under its own id, and both ends of every edge are stored. */
  ghost predicate Registered(c: Parse) {
    && (forall id :: id in c.nodes ==> c.nodes[id].id == id)
    && (forall e :: e in c.edges ==> e.source in c.nodes && e.target in c.nodes)
  }

  /** Nothing parsed is ever lost. */
  ghost predicate Extends(a: Parse, b: Parse) {
    a.nodes.Keys <= b.nodes.Keys && a.edges <= b.edges
  }

  ghost predicate Grows(a: Parse, b: Parse) {
    Extends(a, b) && (Registered(a) ==> Registered(b))
  }

  lemma GrowsOn(a: Parse, b: Parse, c: Parse)
    requires Grows(a, b) && Grows(b, c)
    ensures Grows(a, c)
  {
  }

  lemma JoinedGrows(lex: Lexicon, c: Parse, from_: string, to_: string, attrs: Attrs)
    ensures var r := Joined(lex, c, from_, to_, attrs); r.Some? ==> Grows(c, r.value)
  {
    var a, b := Ensure(c, from_), Ensure(Ensure(c, from_), to_);
    EnsureGrows(c, from_);
    EnsureGrows(a, to_);
    GrowsOn(c, a, b);
    var r := Joined(lex, c, from_, to_, attrs);
    if r.Some? {
      hide Grows;
      EdgeGrows(b, r.value);
      GrowsOn(c, b, r.value);
    }
  }

  lemma EnsureGrows(c: Parse, id: string)
    ensures Grows(c, Ensure(c, id)) && id in Ensure(c, id).nodes
  {
  }

  lemma EdgeGrows(c: Parse, r: Parse)
    requires r.nodes == c.nodes && |r.edges| == |c.edges| + 1 && r.edges[..|c.edges|] == c.edges
    requires r.edges[|c.edges|].source in c.nodes && r.edges[|c.edges|].target in c.nodes
    ensures Grows(c, r)
  {
    forall e | e in r.edges ensures e in c.edges || e == r.edges[|c.edges|] {
      var i :| 0 <= i < |r.edges| && r.edges[i] == e;
      if i < |c.edges| { assert c.edges[i] == e; }
    }
  }

  lemma {:induction false} ChainedGrows(lex: Lexicon, c: Parse, ids: seq<string>, attrs: Attrs)
    ensures var r := Chained(lex, c, ids, attrs); r.Some? ==> Grows(c, r.value)
    decreases |ids|
  {
    hide Grows;
    hide Joined;
    if |ids| < 2 {
      GrowsSelf(c);
    } else {
      JoinedGrows(lex, c, ids[0], ids[1], attrs);
      var first := Joined(lex, c, ids[0], ids[1], attrs);
      if first.Some? {
        ChainedGrows(lex, first.value, ids[1..], attrs);
        var r := Chained(lex, first.value, ids[1..], attrs);
        if r.Some? { GrowsOn(c, first.value, r.value); }
      }
    }
  }

  lemma GrowsSelf(c: Parse)
    ensures Grows(c, c)
  {
  }

  lemma SameParts(a: Parse, b: Parse)
    requires a.nodes == b.nodes && a.edges == b.edges
    ensures Grows(a, b)
  {
  }

  lemma {:induction false} SetPairsKeeps(lex: Lexicon, c: Parse, pairs: Assoc<string, string>)
    ensures var r := SetPairs(lex, c, pairs); r.Some? ==> r.value.nodes == c.nodes && r.value.edges == c.edges
    ensures var r := SetPairs(lex, c, pairs); r.Some? ==> r.value.nodeDefaults == c.nodeDefaults && r.value.edgeDefaults == c.edgeDefaults
    decreases |pairs|
  {
    hide Set;
    if pairs != [] {
      SetKeeps(lex, c, pairs[0].0, pairs[0].1);
      var first := Set(lex, c, pairs[0].0, pairs[0].1);
      if first.Some? { SetPairsKeeps(lex, first.value, pairs[1..]); }
    }
  }

  lemma DeclaredGrows(c: Parse, id: string, attrs: Attrs)
    ensures Grows(c, Declared(c, id, attrs))
  {
  }

  lemma CloseGrows(lex: Lexicon, before: Parse, c: Parse)
    requires Grows(before, c)
    ensures Grows(before, CloseSubgraph(lex, before, c))
    ensures CloseSubgraph(lex, before, c).nodeDefaults == before.nodeDefaults
  {
  }

  /**
   * Whatever the tokens, a parse that is not rejected loses nothing and keeps every node under its own id and
   * every edge between registered nodes.
   */
  lemma {:induction false} ParsingGrows(lex: Lexicon, ts: seq<string>, c: Parse)
    ensures var r := ParseTokens(lex, ts, c); r.Some? ==> Grows(c, r.value)
    decreases |ts|, 0
  {
    hide Grows;
    hide Statement;
    hide CloseSubgraph;
    hide AfterName;
    hide BodyOf;
    if ts == [] {
      GrowsSelf(c);
    } else if ts[0] == ";" {
      ParsingGrows(lex, ts[1..], c);
    } else if ts[0] == "subgraph" {
      var rest := AfterName(ts);
      if Opens(rest, "{") {
        ParsingGrows(lex, BodyOf(rest), c);
        var inner := ParseTokens(lex, BodyOf(rest), c);
        if inner.Some? {
          CloseGrows(lex, c, inner.value);
          ThenGrows(lex, c, CloseSubgraph(lex, c, inner.value), rest[BraceEnd(rest) + 1..]);
        }
      } else {
        ParsingGrows(lex, rest, c);
      }
    } else {
      StatementGrows(lex, ts, c);
      var s := Statement(lex, ts, c);
      if s.Some? { ThenGrows(lex, c, s.value.0, s.value.1); }
    }
  }

  lemma {:induction false} ThenGrows(lex: Lexicon, a: Parse, b: Parse, ts: seq<string>)
    requires Grows(a, b)
    ensures var r := ParseTokens(lex, ts, b); r.Some? ==> Grows(a, r.value)
    decreases |ts|, 1
  {
    hide Grows;
    hide ParseTokens;
    ParsingGrows(lex, ts, b);
    var r := ParseTokens(lex, ts, b);
    if r.Some? { GrowsOn(a, b, r.value); }
  }

  lemma StatementGrows(lex: Lexicon, ts: seq<string>, c: Parse)
    requires ts != [] && ts[0] != "subgraph" && ts[0] != ";"
    ensures var s := Statement(lex, ts, c); s.Some? ==> Grows(c, s.value.0)
  {
    hide Grows;
    hide Set;
    hide SetPairs;
    hide Chained;
    hide Declared;
    hide Block;
    hide AsMap;
    hide IsIdentifier;
    GrowsSelf(c);
    if ts[0] == "graph" && Opens(ts[1..], "[") {
      SetPairsKeeps(lex, c, Block(lex, ts[1..]));
      SameAsBefore(c, SetPairs(lex, c, Block(lex, ts[1..])));
    } else if ts[0] == "node" && Opens(ts[1..], "[") {
      SameParts(c, c.(nodeDefaults := c.nodeDefaults + AsMap(Block(lex, ts[1..]))));
    } else if ts[0] == "edge" && Opens(ts[1..], "[") {
      SameParts(c, c.(edgeDefaults := c.edgeDefaults + AsMap(Block(lex, ts[1..]))));
    } else if !IsIdentifier(ts[0]) {
    } else if Opens(ts[1..], "->") {
      var links := Links(ts[1..]);
      ChainedGrows(lex, c, [ts[0]] + links, OptionalBlock(lex, ts[1 + 2 * |links|..]).0);
    } else if Opens(ts[1..], "=") {
      if |ts| >= 3 {
        SetKeeps(lex, c, ts[0], lex.value("", ts[2]));
        SameAsBefore(c, Set(lex, c, ts[0], lex.value("", ts[2])));
      }
    } else {
      DeclaredGrows(c, ts[0], OptionalBlock(lex, ts[1..]).0);
    }
  }

  lemma SetKeeps(lex: Lexicon, c: Parse, key: string, value: string)
    ensures var r := Set(lex, c, key, value);
      r.Some? ==> r.value.nodes == c.nodes && r.value.edges == c.edges &&
                  r.value.nodeDefaults == c.nodeDefaults && r.value.edgeDefaults == c.edgeDefaults
  {
    hide PlaceOf;
  }

  lemma SameAsBefore(c: Parse, r: Option<Parse>)
    requires r.Some? ==> r.value.nodes == c.nodes && r.value.edges == c.edges
    ensures r.Some? ==> Grows(c, r.value)
  {
  }
}
