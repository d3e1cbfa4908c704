/** The recursive DOT parser of dot_parser.py: a context updated in place, proved against DotSyntax. */
module DotParser {
  import opened Prelude
  import opened DotSyntax

  /** Index of the closer of what opens at `pos`, or the last token. */
  method FindMatching(tokens: seq<string>, pos: nat, open: string, close: string) returns (end: nat)
    requires pos < |tokens|
    ensures end == pos + Close(tokens[pos..], 0, 0, open, close)
  {
    var depth := 0;
    ghost var ts := tokens[pos..];
    for i := pos to |tokens|
      invariant Close(ts, 0, 0, open, close) == Close(ts, i - pos, depth, open, close)
    {
      assert tokens[i] == ts[i - pos];
      if tokens[i] == open {
        depth := depth + 1;
      } else if tokens[i] == close {
        depth := depth - 1;
        if depth == 0 { return i; }
      }
    }
    return |tokens| - 1;
  }

  /** The attribute block opening at `pos`, and the position after it. */
  method ParseAttrBlock(lex: Lexicon, tokens: seq<string>, pos: nat) returns (pairs: Assoc<string, string>, after: nat)
    requires pos < |tokens|
    ensures var ts := tokens[pos..];
      pairs == Block(lex, ts) && after == pos + BlockEnd(ts) + 1 && after <= |tokens| && tokens[after..] == ts[BlockEnd(ts) + 1..]
  {
    hide Assign;
    hide Close;
    ghost var ts := tokens[pos..];
    var end := FindMatching(tokens, pos, "[", "]");
    pairs := [];
    var i := pos + 1;
    while i < end
      invariant pos + 1 <= i && PairsFrom(lex, ts, 1, end - pos, []) == PairsFrom(lex, ts, i - pos, end - pos, pairs)
    {
      assert tokens[i] == ts[i - pos];
      if tokens[i] == "," || tokens[i] == ";" {
        i := i + 1;
      } else if i + 2 <= end && tokens[i + 1] == "=" {
        assert tokens[i + 1] == ts[i - pos + 1] && tokens[i + 2] == ts[i - pos + 2];
        var key := Unquoted(tokens[i]);
        pairs := Assign(pairs, key, lex.value(key, tokens[i + 2]));
        i := i + 3;
      } else {
        assert i + 2 <= end ==> tokens[i + 1] == ts[i - pos + 1];
        i := i + 1;
      }
    }
    after := end + 1;
  }

  lemma TailSlice(tokens: seq<string>, pos: nat, end: nat)
    requires pos < |tokens| && end < |tokens| && end == pos + BraceEnd(tokens[pos..])
    ensures BodyOf(tokens[pos..]) == if pos + 1 <= end then tokens[pos + 1..end] else []
    ensures tokens[end + 1..] == tokens[pos..][BraceEnd(tokens[pos..]) + 1..]
  {
    hide BraceEnd;
    var rest := tokens[pos..];
    if pos + 1 <= end {
      var a, b := tokens[pos + 1..end], rest[1..end - pos];
      assert |a| == |b| && forall k :: 0 <= k < |a| ==> a[k] == b[k];
    }
  }

  class ParseContext {
    var nodes: map<string, NodeRecord>
    var edges: seq<EdgeRecord>
    var graphAttrs: Attrs
    var graphFields: Attrs
    var nodeDefaults: Attrs
    var edgeDefaults: Attrs

    constructor ()
      ensures View() == Parse(map[], [], map[], map[], map[], map[])
    {
      nodes, edges, graphAttrs, graphFields, nodeDefaults, edgeDefaults := map[], [], map[], map[], map[], map[];
    }

    function View(): Parse
      reads this
    {
      Parse(nodes, edges, graphAttrs, graphFields, nodeDefaults, edgeDefaults)
    }

    method EnsureNode(id: string)
      modifies this`nodes
      ensures View() == Ensure(old(View()), id)
    {
      if id !in nodes {
        var d := nodeDefaults;
        nodes := nodes[id := NodeRecord(id, Field(d, "shape", "box"), Field(d, "label", ""), Field(d, "type", ""),
                                        Field(d, "prompt", ""), d - NodeFields)];
      }
    }

    method ApplyNode(id: string, explicit: Attrs)
      modifies this`nodes
      ensures View() == Declared(old(View()), id, explicit)
    {
      var merged := nodeDefaults + explicit;
      var shape, text := Field(merged, "shape", "box"), Field(merged, "label", "");
      var kind, prompt := Field(merged, "type", ""), Field(merged, "prompt", "");
      var rest := merged - NodeFields;
      if id in nodes {
        var n := nodes[id];
        if shape != "box" || "shape" in explicit { n := n.(shape := shape); }
        if text != "" { n := n.(labelText := text); }
        if kind != "" { n := n.(kind := kind); }
        if prompt != "" { n := n.(prompt := prompt); }
        nodes := nodes[id := n.(attrs := n.attrs + rest)];
      } else {
        nodes := nodes[id := NodeRecord(id, shape, text, kind, prompt, rest)];
      }
    }

    method SetGraphAttr(lex: Lexicon, key: string, value: string) returns (ok: bool)
      modifies this`graphAttrs, this`graphFields
      ensures var r := Set(lex, old(View()), key, value); ok == r.Some? && (ok ==> View() == r.value)
    {
      if key == "goal" || key == "model_stylesheet" {
        graphFields := graphFields[key := value];
      } else if key == "default_max_retry" || key == "default_max_retries" {
        graphFields := graphFields["default_max_retry" := value];
      } else if key == "max_pipeline_duration" {
        var d := lex.duration(value);
        if d.None? { return false; }
        graphFields := graphFields[key := d.value];
      } else {
        graphAttrs := graphAttrs[key := value];
      }
      return true;
    }

    method SetGraphAttrs(lex: Lexicon, pairs: Assoc<string, string>) returns (ok: bool)
      modifies this`graphAttrs, this`graphFields
      ensures var r := SetPairs(lex, old(View()), pairs); ok == r.Some? && (ok ==> View() == r.value)
    {
      hide Set;
      assert pairs[0..] == pairs;
      for i := 0 to |pairs|
        invariant SetPairs(lex, old(View()), pairs) == SetPairs(lex, View(), pairs[i..])
      {
        assert pairs[i..][0] == pairs[i] && pairs[i..][1..] == pairs[i + 1..];
        ok := SetGraphAttr(lex, pairs[i].0, pairs[i].1);
        if !ok { return false; }
      }
      return true;
    }

    method AddEdge(lex: Lexicon, source: string, target: string, attrs: Attrs) returns (ok: bool)
      modifies this`nodes, this`edges
      ensures var r := Joined(lex, old(View()), source, target, attrs); ok == r.Some? && (ok ==> View() == r.value)
    {
      hide Ensure;
      ghost var before := View();
      var merged := edgeDefaults + attrs;
      EnsureNode(source);
      EnsureNode(target);
      var weight := if "weight" in merged then lex.weight(merged["weight"]) else Some(0);
      if weight.None? { return false; }
      ghost var e := Ensure(Ensure(before, source), target);
      assert e == View();
      edges := edges + [EdgeRecord(source, target, Field(merged, "label", ""), Field(merged, "condition", ""),
                                   weight.value, merged - EdgeFields)];
      return true;
    }

    /** An optional attribute block at `pos`. */
    method ParseOptionalBlock(lex: Lexicon, tokens: seq<string>, pos: nat) returns (attrs: Attrs, after: nat)
      requires pos <= |tokens|
      ensures pos <= after <= |tokens| && OptionalBlock(lex, tokens[pos..]) == (attrs, tokens[after..])
    {
      hide Block;
      hide BlockEnd;
      hide AsMap;
      attrs, after := map[], pos;
      if pos < |tokens| && tokens[pos] == "[" {
        var pairs;
        pairs, after := ParseAttrBlock(lex, tokens, pos);
        attrs := AsMap(pairs);
      }
    }

    /** `id -> id (-> id)* [attrs]`, from its first id. */
    method ParseEdgeStmt(lex: Lexicon, tokens: seq<string>, start: nat) returns (ok: bool, pos: nat)
      requires start + 1 < |tokens| && tokens[start + 1] == "->"
      modifies this`nodes, this`edges
      ensures var links := Links(tokens[start + 1..]);
        var (attrs, rest) := OptionalBlock(lex, tokens[start + 1..][2 * |links|..]);
        var r := Chained(lex, old(View()), [tokens[start]] + links, attrs);
        ok == r.Some? && (ok ==> start < pos <= |tokens| && tokens[pos..] == rest && View() == r.value)
    {
      hide Joined;
      var chain := [tokens[start]];
      pos := start + 1;
      while pos + 1 < |tokens| && tokens[pos] == "->"
        invariant start + 1 <= pos <= |tokens|
        invariant [tokens[start]] + Links(tokens[start + 1..]) == chain + Links(tokens[pos..])
        invariant |chain| >= 1 && pos == start + 1 + 2 * (|chain| - 1)
      {
        assert tokens[pos..][2..] == tokens[pos + 2..] && tokens[pos..][0] == "->" && tokens[pos..][1] == tokens[pos + 1];
        chain := chain + [tokens[pos + 1]];
        pos := pos + 2;
      }
      assert Links(tokens[pos..]) == [];
      ghost var links := Links(tokens[start + 1..]);
      assert chain == [tokens[start]] + links;
      assert tokens[start + 1..][2 * |links|..] == tokens[pos..];
      var attrs;
      attrs, pos := ParseOptionalBlock(lex, tokens, pos);
      ok := AddChain(lex, chain, attrs);
    }

    method AddChain(lex: Lexicon, chain: seq<string>, attrs: Attrs) returns (ok: bool)
      requires chain != []
      modifies this`nodes, this`edges
      ensures var r := Chained(lex, old(View()), chain, attrs); ok == r.Some? && (ok ==> View() == r.value)
    {
      hide Joined;
      assert chain[0..] == chain;
      for i := 0 to |chain| - 1
        invariant Chained(lex, old(View()), chain, attrs) == Chained(lex, View(), chain[i..], attrs)
      {
        assert chain[i..][1..] == chain[i + 1..] && chain[i..][0] == chain[i] && chain[i..][1] == chain[i + 1];
        ok := AddEdge(lex, chain[i], chain[i + 1], attrs);
        if !ok { return false; }
      }
      return true;
    }

    /** Give the new nodes of a subgraph its class. */
    method ApplyClass(before: set<string>, name: string)
      modifies this`nodes
      ensures nodes == Classed(old(nodes), before, name)
    {
      var fresh_ := nodes.Keys - before;
      var todo := fresh_;
      while todo != {}
        invariant todo <= fresh_ && nodes.Keys == old(nodes).Keys
        invariant forall id :: id in nodes ==>
          nodes[id] == if id in todo then old(nodes)[id] else Classed(old(nodes), before, name)[id]
      {
        var id :| id in todo;
        if Field(nodes[id].attrs, "class", "") == "" {
          nodes := nodes[id := nodes[id].(attrs := nodes[id].attrs["class" := name])];
        }
        todo := todo - {id};
      }
    }

    /** After a subgraph's body: label to class, node defaults back. */
    method LeaveSubgraph(lex: Lexicon, ghost before: Parse, nodesBefore: set<string>, savedDefaults: Attrs)
      requires before.nodes.Keys == nodesBefore && before.nodeDefaults == savedDefaults
      modifies this
      ensures View() == CloseSubgraph(lex, before, old(View()))
    {
      hide Classed;
      var text := Field(graphAttrs, "label", "");
      graphAttrs := graphAttrs - {"label"};
      if text != "" {
        var name := lex.className(text);
        if name != "" {
          ApplyClass(nodesBefore, name);
        }
      }
      nodeDefaults := savedDefaults;
    }

    /** A subgraph, its body parsed in this context. */
    method ParseSubgraph(lex: Lexicon, tokens: seq<string>, start: nat) returns (ok: bool, pos: nat)
      requires start < |tokens| && tokens[start] == "subgraph"
      modifies this
      ensures ok ==> start < pos <= |tokens|
      ensures ParseTokens(lex, tokens[start..], old(View())) == if ok then ParseTokens(lex, tokens[pos..], View()) else None
      decreases |tokens|, 0
    {
      hide CloseSubgraph;
      hide Statement;
      hide Close;
      hide IsIdentifier;
      hide BodyOf;
      ghost var ts, before := tokens[start..], View();
      pos := start + 1;
      if pos < |tokens| && IsIdentifier(tokens[pos]) {
        pos := pos + 1;
      }
      ghost var rest := AfterName(ts);
      assert rest == tokens[pos..];
      if pos < |tokens| && tokens[pos] == "{" {
        var savedDefaults, nodesBefore := nodeDefaults, nodes.Keys;
        var end := FindMatching(tokens, pos, "{", "}");
        assert end == pos + BraceEnd(rest);
        var body := if pos + 1 <= end then tokens[pos + 1..end] else [];
        TailSlice(tokens, pos, end);
        ok := ParseTokenList(lex, body);
        if !ok { return false, pos; }
        LeaveSubgraph(lex, before, nodesBefore, savedDefaults);
        return true, end + 1;
      }
      return true, pos;
    }

    /** A block after one of the keywords that set defaults or graph attributes. */
    method ParseKeywordBlock(lex: Lexicon, tokens: seq<string>, start: nat) returns (ok: bool, pos: nat)
      requires start + 1 < |tokens| && tokens[start] in {"graph", "node", "edge"} && tokens[start + 1] == "["
      modifies this
      ensures var s := Statement(lex, tokens[start..], old(View()));
        ok == s.Some? && (ok ==> start < pos <= |tokens| && s.value == (View(), tokens[pos..]))
    {
      hide Block;
      hide BlockEnd;
      hide AsMap;
      hide SetPairs;
      ghost var ts := tokens[start..];
      assert ts[0] == tokens[start] && ts[1..] == tokens[start + 1..];
      var pairs;
      pairs, pos := ParseAttrBlock(lex, tokens, start + 1);
      ok := true;
      if tokens[start] == "graph" {
        ok := SetGraphAttrs(lex, pairs);
      } else if tokens[start] == "node" {
        nodeDefaults := nodeDefaults + AsMap(pairs);
      } else {
        edgeDefaults := edgeDefaults + AsMap(pairs);
      }
    }

    /** A statement that is neither a subgraph nor a semicolon. */
    method ParseStatement(lex: Lexicon, tokens: seq<string>, start: nat) returns (ok: bool, pos: nat)
      requires start < |tokens| && tokens[start] != "subgraph" && tokens[start] != ";"
      modifies this
      ensures var s := Statement(lex, tokens[start..], old(View()));
        ok == s.Some? && (ok ==> start < pos <= |tokens| && s.value == (View(), tokens[pos..]))
    {
      hide Block;
      hide BlockEnd;
      hide AsMap;
      hide SetPairs;
      hide Set;
      hide Chained;
      hide Declared;
      hide Links;
      hide IsIdentifier;
      hide OptionalBlock;
      ghost var ts := tokens[start..];
      var token := tokens[start];
      assert ts[0] == token && ts[1..] == tokens[start + 1..];
      var next := if start + 1 < |tokens| then tokens[start + 1] else "";
      assert forall t :: t != "" ==> (Opens(ts[1..], t) <==> next == t);
      if (token == "graph" || token == "node" || token == "edge") && next == "[" {
        ok, pos := ParseKeywordBlock(lex, tokens, start);
        return;
      }
      ok := true;
      if !IsIdentifier(token) {
        pos := start + 1;
      } else if next == "->" {
        ok, pos := ParseEdgeStmt(lex, tokens, start);
      } else if next == "=" {
        pos := start + 3;
        if start + 2 >= |tokens| { return false, pos; }
        assert tokens[pos..] == ts[3..] && ts[2] == tokens[start + 2];
        ok := SetGraphAttr(lex, token, lex.value("", tokens[start + 2]));
      } else {
        var attrs;
        attrs, pos := ParseOptionalBlock(lex, tokens, start + 1);
        ApplyNode(token, attrs);
      }
    }

    /** `_parse_token_list`, and `_parse_body` on the whole body. */
    method ParseTokenList(lex: Lexicon, tokens: seq<string>) returns (ok: bool)
      modifies this
      ensures var r := ParseTokens(lex, tokens, old(View())); ok == r.Some? && (ok ==> View() == r.value)
      decreases |tokens|, 1
    {
      hide Statement;
      hide CloseSubgraph;
      hide AfterName;
      hide BodyOf;
      hide BraceEnd;
      var pos := 0;
      assert tokens[0..] == tokens;
      while pos < |tokens|
        invariant pos <= |tokens| && ParseTokens(lex, tokens, old(View())) == ParseTokens(lex, tokens[pos..], View())
        decreases |tokens| - pos
      {
        ghost var ts := tokens[pos..];
        assert ts[0] == tokens[pos] && ts[1..] == tokens[pos + 1..];
        if tokens[pos] == ";" {
          pos := pos + 1;
        } else if tokens[pos] == "subgraph" {
          ok, pos := ParseSubgraph(lex, tokens, pos);
          if !ok { return false; }
        } else {
          ok, pos := ParseStatement(lex, tokens, pos);
          if !ok { return false; }
        }
      }
      return true;
    }
  }
}
