/** Statements of a DOT body, their printed tokens, and the theorem that parsing the tokens does what the statements say. */
module DotRoundTrip {
  import opened Prelude
  import opened DotSyntax
  import Graphs

  type Pairs = seq<(string, string)>

  datatype Stmt =
    | GraphBlock(pairs: Pairs)
    | NodeBlock(pairs: Pairs)
    | EdgeBlock(pairs: Pairs)
    | Assignment(key: string, raw: string)
    | Declaration(id: string, block: Option<Pairs>)
    | Chain(ids: seq<string>, block: Option<Pairs>)
    | Subgraph(name: Option<string>, body: seq<Stmt>)

  // ---------------------------------------------------------------------------
  // Printing
  // ---------------------------------------------------------------------------

  function PrintPairs(pairs: Pairs): (r: seq<string>)
    ensures |r| == 4 * |pairs|
  {
    if pairs == [] then [] else [pairs[0].0, "=", pairs[0].1, ","] + PrintPairs(pairs[1..])
  }

  function PrintBlock(pairs: Pairs): seq<string> {
    ["["] + PrintPairs(pairs) + ["]"]
  }

  function PrintOptional(block: Option<Pairs>): seq<string> {
    if block.Some? then PrintBlock(block.value) else []
  }

  function PrintLinks(ids: seq<string>): (r: seq<string>)
    ensures |r| == 2 * |ids|
  {
    if ids == [] then [] else ["->", ids[0]] + PrintLinks(ids[1..])
  }

  function Print(s: Stmt): seq<string> {
    match s
    case GraphBlock(pairs) => ["graph"] + PrintBlock(pairs)
    case NodeBlock(pairs) => ["node"] + PrintBlock(pairs)
    case EdgeBlock(pairs) => ["edge"] + PrintBlock(pairs)
    case Assignment(key, raw) => [key, "=", raw]
    case Declaration(id, block) => [id] + PrintOptional(block)
    case Chain(ids, block) => (if ids == [] then [] else [ids[0]] + PrintLinks(ids[1..])) + PrintOptional(block)
    case Subgraph(name, body) =>
      ["subgraph"] + (if name.Some? then [name.value] else []) + ["{"] + PrintAll(body) + ["}"]
  }

  function PrintAll(stmts: seq<Stmt>): seq<string> {
    if stmts == [] then [] else Print(stmts[0]) + [";"] + PrintAll(stmts[1..])
  }

  // ---------------------------------------------------------------------------
  // Meaning
  // ---------------------------------------------------------------------------

  function Read(lex: Lexicon, pairs: Pairs, acc: Assoc<string, string>): Assoc<string, string>
    decreases |pairs|
  {
    if pairs == [] then acc
    else
      var key := Unquoted(pairs[0].0);
      Read(lex, pairs[1..], Assign(acc, key, lex.value(key, pairs[0].1)))
  }

  function ReadOptional(lex: Lexicon, block: Option<Pairs>): Attrs {
    if block.Some? then AsMap(Read(lex, block.value, [])) else map[]
  }

  function Meaning(lex: Lexicon, s: Stmt, c: Parse): Option<Parse> {
    match s
    case GraphBlock(pairs) => SetPairs(lex, c, Read(lex, pairs, []))
    case NodeBlock(pairs) => Some(c.(nodeDefaults := c.nodeDefaults + AsMap(Read(lex, pairs, []))))
    case EdgeBlock(pairs) => Some(c.(edgeDefaults := c.edgeDefaults + AsMap(Read(lex, pairs, []))))
    case Assignment(key, raw) => Set(lex, c, key, lex.value("", raw))
    case Declaration(id, block) => Some(Declared(c, id, ReadOptional(lex, block)))
    case Chain(ids, block) => Chained(lex, c, ids, ReadOptional(lex, block))
    case Subgraph(_, body) =>
      var inner := MeaningAll(lex, body, c);
      if inner.None? then None else Some(CloseSubgraph(lex, c, inner.value))
  }

  function MeaningAll(lex: Lexicon, stmts: seq<Stmt>, c: Parse): Option<Parse> {
    if stmts == [] then Some(c)
    else
      var first := Meaning(lex, stmts[0], c);
      if first.None? then None else MeaningAll(lex, stmts[1..], first.value)
  }

  // ---------------------------------------------------------------------------
  // Well-formed statements
  // ---------------------------------------------------------------------------

  predicate Word(t: string) {
    t !in {"[", "]", "{", "}", "=", ",", ";", "->"}
  }

  predicate PlainId(t: string) {
    IsIdentifier(t) && t !in {"subgraph", "graph", "node", "edge"}
  }

  predicate WordPairs(pairs: Pairs) {
    forall i :: 0 <= i < |pairs| ==> Word(pairs[i].0) && Word(pairs[i].1)
  }

  predicate WordBlock(block: Option<Pairs>) {
    block.Some? ==> WordPairs(block.value)
  }

  predicate Valid(s: Stmt) {
    match s
    case GraphBlock(pairs) => WordPairs(pairs)
    case NodeBlock(pairs) => WordPairs(pairs)
    case EdgeBlock(pairs) => WordPairs(pairs)
    case Assignment(key, raw) => PlainId(key) && Word(raw)
    case Declaration(id, block) => PlainId(id) && WordBlock(block)
    case Chain(ids, block) => |ids| >= 2 && PlainId(ids[0]) && (forall i :: 1 <= i < |ids| ==> Word(ids[i])) && WordBlock(block)
    case Subgraph(name, body) => (name.Some? ==> IsIdentifier(name.value)) && ValidAll(body)
  }

  predicate ValidAll(stmts: seq<Stmt>) {
    stmts == [] || (Valid(stmts[0]) && ValidAll(stmts[1..]))
  }

  lemma PlainIsWord(t: string)
    requires IsIdentifier(t)
    ensures Word(t)
  {
    assert !IsLetter("["[0]) && !IsLetter("]"[0]) && !IsLetter("{"[0]) && !IsLetter("}"[0]);
    assert !IsLetter("="[0]) && !IsLetter(","[0]) && !IsLetter(";"[0]) && !IsLetter("->"[0]);
  }

  // ---------------------------------------------------------------------------
  // Attribute blocks
  // ---------------------------------------------------------------------------

  predicate Flat(ts: seq<string>, open: string, close: string) {
    forall i :: 0 <= i < |ts| ==> ts[i] != open && ts[i] != close
  }

  /** The closer search passes over tokens that are neither opener nor closer. */
  lemma {:induction false} PassFlat(ts: seq<string>, i: nat, n: nat, depth: int, open: string, close: string)
    requires i + n <= |ts| && ts != [] && Flat(ts[i..i + n], open, close)
    ensures Close(ts, i, depth, open, close) == Close(ts, i + n, depth, open, close)
    decreases n
  {
    if n > 0 {
      assert ts[i] == ts[i..i + n][0];
      assert ts[i + 1..i + n] == ts[i..i + n][1..];
      PassFlat(ts, i + 1, n - 1, depth, open, close);
    }
  }

  lemma {:induction false} PairsAt(pairs: Pairs, k: nat)
    requires k < |pairs|
    ensures var p := PrintPairs(pairs);
      p[4 * k] == pairs[k].0 && p[4 * k + 1] == "=" && p[4 * k + 2] == pairs[k].1 && p[4 * k + 3] == ","
  {
    var head, tail := [pairs[0].0, "=", pairs[0].1, ","], PrintPairs(pairs[1..]);
    assert PrintPairs(pairs) == head + tail;
    if k > 0 {
      PairsAt(pairs[1..], k - 1);
      hide PrintPairs;
      var j := 4 * (k - 1);
      assert (head + tail)[4 + j] == tail[j] && (head + tail)[4 + j + 1] == tail[j + 1];
      assert (head + tail)[4 + j + 2] == tail[j + 2] && (head + tail)[4 + j + 3] == tail[j + 3];
    }
  }

  lemma PairsAreFlat(pairs: Pairs)
    requires WordPairs(pairs)
    ensures forall i :: 0 <= i < |PrintPairs(pairs)| ==>
      PrintPairs(pairs)[i] !in {"[", "]", "{", "}"}
  {
    forall i | 0 <= i < |PrintPairs(pairs)| ensures PrintPairs(pairs)[i] !in {"[", "]", "{", "}"} {
      var k := i / 4;
      PairsAt(pairs, k);
      assert i == 4 * k || i == 4 * k + 1 || i == 4 * k + 2 || i == 4 * k + 3;
      assert "="[0] == '=' && ","[0] == ',';
    }
  }

  lemma BlockEndOf(pairs: Pairs, rest: seq<string>)
    requires WordPairs(pairs)
    ensures var ts := PrintBlock(pairs) + rest;
      BlockEnd(ts) == 1 + 4 * |pairs| && ts[BlockEnd(ts) + 1..] == rest
  {
    var ts := PrintBlock(pairs) + rest;
    var n := 4 * |pairs|;
    PairsAreFlat(pairs);
    assert ts[1..1 + n] == PrintPairs(pairs);
    PassFlat(ts, 1, n, 1, "[", "]");
    assert ts[0] == "[" && ts[1 + n] == "]";
  }

  lemma PairStep(lex: Lexicon, ts: seq<string>, i: nat, end: nat, key: string, raw: string, acc: Assoc<string, string>)
    requires i + 4 <= end < |ts| && ts[i] == key && ts[i + 1] == "=" && ts[i + 2] == raw && ts[i + 3] == ","
    requires key != "," && key != ";"
    ensures var name := Unquoted(key);
      PairsFrom(lex, ts, i, end, acc) == PairsFrom(lex, ts, i + 4, end, Assign(acc, name, lex.value(name, raw)))
  {
    hide Assign;
    hide Unquoted;
    var name := Unquoted(key);
    var next := Assign(acc, name, lex.value(name, raw));
    assert PairsFrom(lex, ts, i, end, acc) == PairsFrom(lex, ts, i + 3, end, next);
    assert PairsFrom(lex, ts, i + 3, end, next) == PairsFrom(lex, ts, i + 4, end, next);
  }

  lemma {:induction false} ReadPairs(lex: Lexicon, pairs: Pairs, rest: seq<string>, k: nat, acc: Assoc<string, string>)
    requires WordPairs(pairs) && k <= |pairs|
    ensures PairsFrom(lex, PrintBlock(pairs) + rest, 1 + 4 * k, 1 + 4 * |pairs|, acc) == Read(lex, pairs[k..], acc)
    decreases |pairs| - k
  {
    hide PairsFrom;
    hide Assign;
    hide Unquoted;
    var ts := PrintBlock(pairs) + rest;
    var end := 1 + 4 * |pairs|;
    if k < |pairs| {
      var i := 1 + 4 * k;
      PairTokens(pairs, rest, k);
      hide PrintBlock;
      PairStep(lex, ts, i, end, pairs[k].0, pairs[k].1, acc);
      var name := Unquoted(pairs[k].0);
      assert pairs[k..][0] == pairs[k] && pairs[k..][1..] == pairs[k + 1..];
      ReadPairs(lex, pairs, rest, k + 1, Assign(acc, name, lex.value(name, pairs[k].1)));
    } else {
      assert pairs[k..] == [];
      NoMorePairs(lex, ts, end, acc);
    }
  }

  lemma PairTokens(pairs: Pairs, rest: seq<string>, k: nat)
    requires WordPairs(pairs) && k < |pairs|
    ensures var ts := PrintBlock(pairs) + rest;
      var i := 1 + 4 * k;
      && 1 + 4 * |pairs| < |ts| && i + 4 <= 1 + 4 * |pairs|
      && ts[i] == pairs[k].0 && ts[i + 1] == "=" && ts[i + 2] == pairs[k].1 && ts[i + 3] == ","
      && pairs[k].0 != "," && pairs[k].0 != ";"
  {
    PairsAt(pairs, k);
    assert Word(pairs[k].0);
    var p := PrintPairs(pairs);
    hide PrintPairs;
    var ts := PrintBlock(pairs) + rest;
    var j := 4 * k;
    assert ts[1 + j] == p[j] && ts[1 + j + 1] == p[j + 1] && ts[1 + j + 2] == p[j + 2] && ts[1 + j + 3] == p[j + 3];
  }

  lemma NoMorePairs(lex: Lexicon, ts: seq<string>, end: nat, acc: Assoc<string, string>)
    requires end < |ts|
    ensures PairsFrom(lex, ts, end, end, acc) == acc
  {
  }

  /** A printed block reads back as its pairs, whatever follows. */
  lemma BlockReads(lex: Lexicon, pairs: Pairs, rest: seq<string>)
    requires WordPairs(pairs)
    ensures var ts := PrintBlock(pairs) + rest;
      Block(lex, ts) == Read(lex, pairs, []) && ts[BlockEnd(ts) + 1..] == rest
  {
    BlockEndOf(pairs, rest);
    ReadPairs(lex, pairs, rest, 0, []);
    assert pairs[0..] == pairs;
  }

  lemma OptionalReads(lex: Lexicon, block: Option<Pairs>, rest: seq<string>)
    requires WordBlock(block) && !Opens(rest, "[")
    ensures OptionalBlock(lex, PrintOptional(block) + rest) == (ReadOptional(lex, block), rest)
  {
    hide BlockEnd;
    hide Block;
    hide AsMap;
    if block.Some? {
      BlockReads(lex, block.value, rest);
    } else {
      assert PrintOptional(block) + rest == rest;
    }
  }

  lemma {:induction false} LinksRead(ids: seq<string>, rest: seq<string>)
    requires !Opens(rest, "->")
    ensures Links(PrintLinks(ids) + rest) == ids
    ensures (PrintLinks(ids) + rest)[2 * |ids|..] == rest
  {
    if ids == [] {
      assert PrintLinks(ids) + rest == rest;
      assert Links(rest) == [];
    } else {
      LinksRead(ids[1..], rest);
      var tail := PrintLinks(ids[1..]) + rest;
      assert PrintLinks(ids) + rest == ["->", ids[0]] + tail;
      hide PrintLinks;
      var ts := ["->", ids[0]] + tail;
      assert ts[2..] == tail && ts[0] == "->" && ts[1] == ids[0];
      assert Links(ts) == [ids[0]] + Links(tail);
      hide Links;
      assert ts[2 * |ids|..] == tail[2 * |ids[1..]|..];
    }
  }

  // ---------------------------------------------------------------------------
  // Braces of printed statements match
  // ---------------------------------------------------------------------------

  lemma BlockHasNoBraces(block: Option<Pairs>)
    requires WordBlock(block)
    ensures Flat(PrintOptional(block), "{", "}")
  {
    if block.Some? { PairsAreFlat(block.value); }
  }

  lemma {:induction false} LinksHaveNoBraces(ids: seq<string>)
    requires forall i :: 0 <= i < |ids| ==> Word(ids[i])
    ensures Flat(PrintLinks(ids), "{", "}")
  {
    if ids != [] { LinksHaveNoBraces(ids[1..]); }
  }

  /** Outside subgraphs a printed statement has no braces. */
  lemma StatementHasNoBraces(s: Stmt)
    requires Valid(s) && !s.Subgraph?
    ensures Flat(Print(s), "{", "}")
  {
    match s {
      case GraphBlock(pairs) => BlockHasNoBraces(Some(pairs));
      case NodeBlock(pairs) => BlockHasNoBraces(Some(pairs));
      case EdgeBlock(pairs) => BlockHasNoBraces(Some(pairs));
      case Assignment(key, raw) => PlainIsWord(key);
      case Declaration(id, block) =>
        PlainIsWord(id);
        BlockHasNoBraces(block);
      case Chain(ids, block) =>
        PlainIsWord(ids[0]);
        LinksHaveNoBraces(ids[1..]);
        BlockHasNoBraces(block);
    }
  }

  /** A braced region whose inside is passed over is passed over itself. */
  lemma PassBraced(ts: seq<string>, i: nat, h: nat, b: nat, depth: int)
    requires i + h + b + 2 <= |ts| && ts != [] && depth >= 1
    requires Flat(ts[i..i + h], "{", "}") && ts[i + h] == "{" && ts[i + h + 1 + b] == "}"
    requires Close(ts, i + h + 1, depth + 1, "{", "}") == Close(ts, i + h + 1 + b, depth + 1, "{", "}")
    ensures Close(ts, i, depth, "{", "}") == Close(ts, i + h + b + 2, depth, "{", "}")
  {
    PassFlat(ts, i, h, depth, "{", "}");
  }

  function Header(s: Stmt): seq<string>
    requires s.Subgraph?
  {
    ["subgraph"] + if s.name.Some? then [s.name.value] else []
  }

  /** Where the parts of a printed subgraph lie. */
  lemma SubgraphParts(ts: seq<string>, i: nat, s: Stmt)
    requires s.Subgraph? && Valid(s) && i + |Print(s)| <= |ts| && ts[i..i + |Print(s)|] == Print(s)
    ensures var h, b := |Header(s)|, |PrintAll(s.body)|;
      && |Print(s)| == h + b + 2
      && Flat(ts[i..i + h], "{", "}") && ts[i + h] == "{" && ts[i + h + 1 + b] == "}"
      && ts[i + h + 1..i + h + 1 + b] == PrintAll(s.body)
  {
    hide PrintAll;
    var head, body := Header(s), PrintAll(s.body);
    var p := Print(s);
    assert p == head + ["{"] + body + ["}"];
    if s.name.Some? { PlainIsWord(s.name.value); }
    assert Flat(head, "{", "}");
    SliceParts(ts, i, head, body);
  }

  /** Cutting a braced piece out of a longer list. */
  lemma SliceParts(ts: seq<string>, i: nat, head: seq<string>, body: seq<string>)
    requires var p := head + ["{"] + body + ["}"]; i + |p| <= |ts| && ts[i..i + |p|] == p
    ensures var h, b := |head|, |body|;
      ts[i..i + h] == head && ts[i + h] == "{" && ts[i + h + 1 + b] == "}" && ts[i + h + 1..i + h + 1 + b] == body
  {
    var p := head + ["{"] + body + ["}"];
    var h, b := |head|, |body|;
    assert p[0..h] == head && p[h + 1..h + 1 + b] == body && p[h] == "{" && p[h + 1 + b] == "}";
    SubSlice(ts, i, |p|, 0, h);
    SubSlice(ts, i, |p|, h + 1, h + 1 + b);
    assert ts[i + h] == ts[i..i + |p|][h] && ts[i + h + 1 + b] == ts[i..i + |p|][h + 1 + b];
  }

  lemma SubSlice(ts: seq<string>, i: nat, n: nat, a: nat, b: nat)
    requires i + n <= |ts| && a <= b <= n
    ensures ts[i..i + n][a..b] == ts[i + a..i + b]
  {
    var x, y := ts[i..i + n][a..b], ts[i + a..i + b];
    assert |x| == |y| && forall k :: 0 <= k < |x| ==> x[k] == y[k];
  }

  /** Inside a brace the search for its closer passes over any printed statement. */
  lemma {:induction false} PassStatement(ts: seq<string>, i: nat, s: Stmt, depth: int)
    requires Valid(s) && i + |Print(s)| <= |ts| && ts != [] && ts[i..i + |Print(s)|] == Print(s) && depth >= 1
    ensures Close(ts, i, depth, "{", "}") == Close(ts, i + |Print(s)|, depth, "{", "}")
    decreases s, 0
  {
    hide Close;
    hide Print;
    if s.Subgraph? {
      SubgraphParts(ts, i, s);
      var h, b := |Header(s)|, |PrintAll(s.body)|;
      hide Header;
      PassAll(ts, i + h + 1, s.body, depth + 1);
      PassBraced(ts, i, h, b, depth);
    } else {
      StatementHasNoBraces(s);
      PassFlat(ts, i, |Print(s)|, depth, "{", "}");
    }
  }

  lemma {:induction false} PassAll(ts: seq<string>, i: nat, stmts: seq<Stmt>, depth: int)
    requires ValidAll(stmts) && i + |PrintAll(stmts)| <= |ts| && ts != [] && ts[i..i + |PrintAll(stmts)|] == PrintAll(stmts)
    requires depth >= 1
    ensures Close(ts, i, depth, "{", "}") == Close(ts, i + |PrintAll(stmts)|, depth, "{", "}")
    decreases stmts, 1
  {
    hide Close;
    hide Print;
    if stmts != [] {
      var p, rest := Print(stmts[0]), PrintAll(stmts[1..]);
      assert PrintAll(stmts) == p + [";"] + rest;
      hide PrintAll;
      SliceThree(ts, i, p, rest);
      PassStatement(ts, i, stmts[0], depth);
      PassOne(ts, i + |p|, depth);
      PassAll(ts, i + |p| + 1, stmts[1..], depth);
    }
  }

  lemma PassOne(ts: seq<string>, i: nat, depth: int)
    requires i < |ts| && ts[i] == ";"
    ensures Close(ts, i, depth, "{", "}") == Close(ts, i + 1, depth, "{", "}")
  {
    assert ";"[0] == ';' && "{"[0] == '{' && "}"[0] == '}';
  }

  lemma SliceThree(ts: seq<string>, i: nat, p: seq<string>, rest: seq<string>)
    requires i + |p| + 1 + |rest| <= |ts| && ts[i..i + (|p| + 1 + |rest|)] == p + [";"] + rest
    ensures ts[i..i + |p|] == p && ts[i + |p|] == ";" && ts[i + |p| + 1..i + |p| + 1 + |rest|] == rest
  {
    var all := p + [";"] + rest;
    assert all[0..|p|] == p && all[|p|] == ";" && all[|p| + 1..|p| + 1 + |rest|] == rest;
    SubSlice(ts, i, |all|, 0, |p|);
    SubSlice(ts, i, |all|, |p| + 1, |p| + 1 + |rest|);
    assert ts[i + |p|] == ts[i..i + |all|][|p|];
  }

  // ---------------------------------------------------------------------------
  // The theorem
  // ---------------------------------------------------------------------------

  function Then(lex: Lexicon, r: Option<Parse>, rest: seq<string>): Option<Parse> {
    if r.None? then None else ParseTokens(lex, rest, r.value)
  }

  /** What parsing one statement is to give. */
  ghost predicate ReadsAs(lex: Lexicon, s: Stmt, rest: seq<string>, c: Parse) {
    var ts := Print(s) + rest;
    ts != [] && ts[0] != "subgraph" && ts[0] != ";" &&
    Statement(lex, ts, c) == (var m := Meaning(lex, s, c); if m.None? then None else Some((m.value, rest)))
  }

  lemma DeclarationReads(lex: Lexicon, s: Stmt, rest: seq<string>, c: Parse)
    requires Valid(s) && s.Declaration? && Opens(rest, ";")
    ensures ReadsAs(lex, s, rest, c)
  {
    var ts := Print(s) + rest;
    PlainIsWord(s.id);
    OptionalReads(lex, s.block, rest);
    assert ts[1..] == PrintOptional(s.block) + rest;
    assert ts[0] == s.id;
    assert !Opens(ts[1..], "->") && !Opens(ts[1..], "=");
    hide OptionalBlock;
    hide ReadOptional;
    hide PrintOptional;
    hide IsIdentifier;
    hide Declared;
  }

  /** The edge branch of `Statement`, given what its parts read as. */
  lemma EdgeStatement(lex: Lexicon, ts: seq<string>, c: Parse, links: seq<string>, attrs: Attrs, rest: seq<string>)
    requires ts != [] && PlainId(ts[0]) && ts[0] != ";" && Opens(ts[1..], "->") && Links(ts[1..]) == links
    requires OptionalBlock(lex, ts[1 + 2 * |links|..]) == (attrs, rest)
    ensures Statement(lex, ts, c) ==
      (var r := Chained(lex, c, [ts[0]] + links, attrs); if r.None? then None else Some((r.value, rest)))
  {
    hide OptionalBlock;
    hide Links;
    hide IsIdentifier;
    hide Chained;
  }

  lemma TailOpens(block: Option<Pairs>, rest: seq<string>)
    requires Opens(rest, ";")
    ensures !Opens(PrintOptional(block) + rest, "->")
  {
    assert block.Some? ==> (PrintOptional(block) + rest)[0] == "[";
    assert "["[0] == '[' && "->"[0] == '-' && ";"[0] == ';';
  }

  lemma ChainReads(lex: Lexicon, s: Stmt, rest: seq<string>, c: Parse)
    requires Valid(s) && s.Chain? && Opens(rest, ";")
    ensures ReadsAs(lex, s, rest, c)
  {
    hide OptionalBlock;
    hide ReadOptional;
    hide PrintOptional;
    hide Links;
    hide Chained;
    hide Statement;
    hide IsIdentifier;
    var ids := s.ids;
    var links := ids[1..];
    var tail := PrintOptional(s.block) + rest;
    PlainIsWord(ids[0]);
    TailOpens(s.block, rest);
    LinksRead(links, tail);
    OptionalReads(lex, s.block, rest);
    var ts := [ids[0]] + PrintLinks(links) + tail;
    assert Print(s) + rest == ts && ts[1..] == PrintLinks(links) + tail;
    assert Opens(ts[1..], "->");
    assert ts[1 + 2 * |links|..] == ts[1..][2 * |links|..];
    EdgeStatement(lex, ts, c, links, ReadOptional(lex, s.block), rest);
    assert [ids[0]] + links == ids;
  }

  lemma AssignmentReads(lex: Lexicon, s: Stmt, rest: seq<string>, c: Parse)
    requires Valid(s) && s.Assignment?
    ensures ReadsAs(lex, s, rest, c)
  {
    var ts := Print(s) + rest;
    PlainIsWord(s.key);
    assert ts[1..] == ["=", s.raw] + rest && ts[3..] == rest && ts[0] == s.key && ts[2] == s.raw;
    hide IsIdentifier;
    hide Set;
  }

  lemma BlockReadsAs(lex: Lexicon, s: Stmt, rest: seq<string>, c: Parse)
    requires Valid(s) && (s.GraphBlock? || s.NodeBlock? || s.EdgeBlock?)
    ensures ReadsAs(lex, s, rest, c)
  {
    var keyword := if s.GraphBlock? then "graph" else if s.NodeBlock? then "node" else "edge";
    assert "graph"[0] == 'g' && "node"[0] == 'n' && "edge"[0] == 'e' && ";"[0] == ';' && "subgraph"[0] == 's';
    var ts := [keyword] + PrintBlock(s.pairs) + rest;
    assert Print(s) + rest == ts && ts[0] == keyword;
    BlockStatementReads(lex, keyword, s.pairs, rest);
    hide Block;
    hide BlockEnd;
    hide AsMap;
    hide Read;
    hide SetPairs;
    hide PrintBlock;
  }

  /** A printed statement that is no subgraph parses as that one statement. */
  lemma StatementReads(lex: Lexicon, s: Stmt, rest: seq<string>, c: Parse)
    requires Valid(s) && !s.Subgraph? && Opens(rest, ";")
    ensures ReadsAs(lex, s, rest, c)
  {
    hide ReadsAs;
    match s {
      case Assignment(_, _) => AssignmentReads(lex, s, rest, c);
      case Declaration(_, _) => DeclarationReads(lex, s, rest, c);
      case Chain(_, _) => ChainReads(lex, s, rest, c);
      case _ => BlockReadsAs(lex, s, rest, c);
    }
  }

  lemma BlockStatementReads(lex: Lexicon, keyword: string, pairs: Pairs, rest: seq<string>)
    requires WordPairs(pairs)
    ensures var ts := [keyword] + PrintBlock(pairs) + rest;
      Opens(ts[1..], "[") && Block(lex, ts[1..]) == Read(lex, pairs, []) && ts[1..][BlockEnd(ts[1..]) + 1..] == rest
  {
    var ts := [keyword] + PrintBlock(pairs) + rest;
    assert ts[1..] == PrintBlock(pairs) + rest;
    BlockReads(lex, pairs, rest);
  }

  /** The tokens of a printed subgraph: where its braces are. */
  lemma SubgraphSplits(s: Stmt, rest: seq<string>)
    requires s.Subgraph? && Valid(s)
    ensures var ts := Print(s) + rest;
      && ts != [] && ts[0] == "subgraph"
      && var after := AfterName(ts);
         Opens(after, "{") && BodyOf(after) == PrintAll(s.body) && after[BraceEnd(after) + 1..] == rest
  {
    hide PrintAll;
    hide IsIdentifier;
    var ts := Print(s) + rest;
    var body := PrintAll(s.body);
    var inner := ["{"] + body + ["}"] + rest;
    if s.name.Some? {
      assert ts == ["subgraph", s.name.value] + inner;
      assert ts[2..] == inner;
    } else {
      assert ts == ["subgraph"] + inner;
      assert ts[1..] == inner;
      BraceIsNoName();
    }
    assert AfterName(ts) == inner;
    BracesMatch(s.body, rest);
  }

  lemma BraceIsNoName()
    ensures !IsIdentifier("{")
  {
    assert !IsLetter("{"[0]);
  }

  lemma BracesMatch(stmts: seq<Stmt>, rest: seq<string>)
    requires ValidAll(stmts)
    ensures var body := PrintAll(stmts);
      var inner := ["{"] + body + ["}"] + rest;
      BraceEnd(inner) == 1 + |body| && BodyOf(inner) == body && inner[BraceEnd(inner) + 1..] == rest
  {
    hide PrintAll;
    var body := PrintAll(stmts);
    var inner := ["{"] + body + ["}"] + rest;
    assert inner[1..1 + |body|] == body;
    PassAll(inner, 1, stmts, 1);
    assert inner[1 + |body|] == "}" && inner[0] == "{";
  }

  /**
   * Parsing the printed form of any well-formed list of statements, nested subgraphs included, does exactly
   * what the statements mean, and then goes on with whatever follows.
   */
  lemma {:induction false} ParsePrinted(lex: Lexicon, stmts: seq<Stmt>, rest: seq<string>, c: Parse)
    requires ValidAll(stmts)
    ensures ParseTokens(lex, PrintAll(stmts) + rest, c) == Then(lex, MeaningAll(lex, stmts, c), rest)
    decreases stmts
  {
    hide Statement;
    hide AfterName;
    hide BodyOf;
    hide BraceEnd;
    hide CloseSubgraph;
    if stmts == [] {
      assert PrintAll(stmts) + rest == rest;
    } else {
      var s := stmts[0];
      var more := [";"] + (PrintAll(stmts[1..]) + rest);
      assert PrintAll(stmts) + rest == Print(s) + more;
      assert more[1..] == PrintAll(stmts[1..]) + rest;
      if s.Subgraph? {
        SubgraphSplits(s, more);
        assert PrintAll(s.body) + [] == PrintAll(s.body);
        ParsePrinted(lex, s.body, [], c);
      } else {
        StatementReads(lex, s, more, c);
      }
      var m := Meaning(lex, s, c);
      if m.Some? {
        ParsePrinted(lex, stmts[1..], rest, m.value);
        assert ParseTokens(lex, more, m.value) == ParseTokens(lex, more[1..], m.value);
      }
    }
  }

  // ---------------------------------------------------------------------------
  // What the statements mean for defaults and edges
  // ---------------------------------------------------------------------------

  /** The node defaults a statement list sets at its own level. */
  function OwnDefaults(lex: Lexicon, stmts: seq<Stmt>, defaults: Attrs): Attrs
    decreases |stmts|
  {
    if stmts == [] then defaults
    else
      OwnDefaults(lex, stmts[1..],
                  if stmts[0].NodeBlock? then defaults + AsMap(Read(lex, stmts[0].pairs, [])) else defaults)
  }

  /** Node defaults are scoped: only blocks at a list's own level change them, never those inside its subgraphs. */
  lemma {:induction false} NodeDefaultsAreScoped(lex: Lexicon, stmts: seq<Stmt>, c: Parse)
    ensures var r := MeaningAll(lex, stmts, c);
      r.Some? ==> r.value.nodeDefaults == OwnDefaults(lex, stmts, c.nodeDefaults)
    decreases |stmts|
  {
    hide AsMap;
    hide Read;
    hide MeaningAll;
    if stmts == [] {
      assert MeaningAll(lex, stmts, c) == Some(c) by { MeaningOfNone(lex, c); }
    } else {
      MeaningStep(lex, stmts, c);
      var first := Meaning(lex, stmts[0], c);
      if first.Some? {
        StatementDefaults(lex, stmts[0], c);
        NodeDefaultsAreScoped(lex, stmts[1..], first.value);
      }
    }
  }

  lemma MeaningOfNone(lex: Lexicon, c: Parse)
    ensures MeaningAll(lex, [], c) == Some(c)
  {
  }

  lemma MeaningStep(lex: Lexicon, stmts: seq<Stmt>, c: Parse)
    requires stmts != []
    ensures var first := Meaning(lex, stmts[0], c);
      MeaningAll(lex, stmts, c) == if first.None? then None else MeaningAll(lex, stmts[1..], first.value)
  {
    hide Meaning;
  }

  lemma StatementDefaults(lex: Lexicon, s: Stmt, c: Parse)
    ensures var r := Meaning(lex, s, c);
      r.Some? ==>
        r.value.nodeDefaults ==
          if s.NodeBlock? then c.nodeDefaults + AsMap(Read(lex, s.pairs, [])) else c.nodeDefaults
  {
    hide AsMap;
    hide Read;
    hide Chained;
    hide SetPairs;
    hide Set;
    hide MeaningAll;
    match s {
      case GraphBlock(pairs) => SetPairsKeeps(lex, c, Read(lex, pairs, []));
      case Assignment(key, raw) => SetKeeps(lex, c, key, lex.value("", raw));
      case Chain(ids, block) => ChainKeepsDefaults(lex, c, ids, ReadOptional(lex, block));
      case Subgraph(_, body) => hide Classed;
      case _ =>
    }
  }

  lemma {:induction false} ChainKeepsDefaults(lex: Lexicon, c: Parse, ids: seq<string>, attrs: Attrs)
    ensures var r := Chained(lex, c, ids, attrs);
      r.Some? ==> r.value.nodeDefaults == c.nodeDefaults && r.value.edgeDefaults == c.edgeDefaults
    decreases |ids|
  {
    if |ids| >= 2 {
      var first := Joined(lex, c, ids[0], ids[1], attrs);
      if first.Some? { ChainKeepsDefaults(lex, first.value, ids[1..], attrs); }
    }
  }

  /** The edges a chain stands for: one between each two neighbours, all alike. */
  function EdgesOf(ids: seq<string>, m: Attrs, weight: int): (r: seq<EdgeRecord>)
    requires |ids| >= 1
    ensures |r| == |ids| - 1
    ensures forall i :: 0 <= i < |r| ==> r[i].source == ids[i] && r[i].target == ids[i + 1]
  {
    seq(|ids| - 1, i requires 0 <= i < |ids| - 1 =>
      EdgeRecord(ids[i], ids[i + 1], Field(m, "label", ""), Field(m, "condition", ""), weight, m - EdgeFields))
  }

  function WeightOf(lex: Lexicon, m: Attrs): Option<int> {
    if "weight" in m then lex.weight(m["weight"]) else Some(0)
  }

  /** A chain of n ids adds exactly its n-1 edges, in order; it fails only for a weight that is no number. */
  lemma {:induction false} ChainAddsItsEdges(lex: Lexicon, c: Parse, ids: seq<string>, attrs: Attrs)
    requires |ids| >= 2
    ensures var weight := WeightOf(lex, c.edgeDefaults + attrs);
      var r := Chained(lex, c, ids, attrs);
      && (r.None? <==> weight.None?)
      && (r.Some? ==> r.value.edges == c.edges + EdgesOf(ids, c.edgeDefaults + attrs, weight.value))
    decreases |ids|
  {
    hide Joined;
    hide EdgesOf;
    hide WeightOf;
    var m := c.edgeDefaults + attrs;
    JoinedAdds(lex, c, ids[0], ids[1], attrs);
    var first := Joined(lex, c, ids[0], ids[1], attrs);
    var weight := WeightOf(lex, m);
    if first.Some? {
      if |ids| > 2 {
        ChainAddsItsEdges(lex, first.value, ids[1..], attrs);
        EdgesCons(ids, m, weight.value);
      } else {
        assert Chained(lex, first.value, ids[1..], attrs) == first;
        assert ids == [ids[0], ids[1]];
      }
    }
  }

  /** Joining two nodes adds the one edge between them. */
  lemma JoinedAdds(lex: Lexicon, c: Parse, from_: string, to_: string, attrs: Attrs)
    ensures var weight := WeightOf(lex, c.edgeDefaults + attrs);
      var r := Joined(lex, c, from_, to_, attrs);
      && (r.None? <==> weight.None?)
      && (r.Some? ==> r.value.edges == c.edges + EdgesOf([from_, to_], c.edgeDefaults + attrs, weight.value) &&
                      r.value.edgeDefaults == c.edgeDefaults)
  {
    hide Ensure;
    EnsureKeeps(c, from_);
    EnsureKeeps(Ensure(c, from_), to_);
  }

  lemma EdgesCons(ids: seq<string>, m: Attrs, weight: int)
    requires |ids| >= 3
    ensures EdgesOf(ids[..2], m, weight) + EdgesOf(ids[1..], m, weight) == EdgesOf(ids, m, weight)
    ensures ids[..2] == [ids[0], ids[1]]
  {
  }

  lemma EnsureKeeps(c: Parse, id: string)
    ensures Ensure(c, id).edges == c.edges && Ensure(c, id).edgeDefaults == c.edgeDefaults
  {
  }

  // ---------------------------------------------------------------------------
  // Edge defaults and labels are not scoped
  // ---------------------------------------------------------------------------

  /** What all edge blocks of a list say together, those inside its subgraphs included; later ones win. */
  function EdgeOverlay(lex: Lexicon, stmts: seq<Stmt>): Attrs {
    if stmts == [] then map[] else OverlayOf(lex, stmts[0]) + EdgeOverlay(lex, stmts[1..])
  }

  function OverlayOf(lex: Lexicon, s: Stmt): Attrs {
    match s
    case EdgeBlock(pairs) => AsMap(Read(lex, pairs, []))
    case Subgraph(_, body) => EdgeOverlay(lex, body)
    case _ => map[]
  }

  /** Edge defaults after a list are those before it under every edge block in it, at whatever depth. */
  lemma {:induction false} EdgeDefaultsAreNotScoped(lex: Lexicon, stmts: seq<Stmt>, c: Parse)
    ensures var r := MeaningAll(lex, stmts, c);
      r.Some? ==> r.value.edgeDefaults == c.edgeDefaults + EdgeOverlay(lex, stmts)
    decreases stmts
  {
    hide MeaningAll;
    hide Meaning;
    hide OverlayOf;
    hide EdgeOverlay;
    hide CloseSubgraph;
    OverlayStep(lex, stmts);
    if stmts == [] {
      MeaningOfNone(lex, c);
      Overlaid(c.edgeDefaults, map[], map[]);
    } else {
      MeaningStep(lex, stmts, c);
      var s := stmts[0];
      var first := Meaning(lex, s, c);
      if s.Subgraph? {
        EdgeDefaultsAreNotScoped(lex, s.body, c);
        SubgraphMeaning(lex, s, c);
        SubgraphOverlay(lex, s);
      } else {
        StatementEdgeDefaults(lex, s, c);
      }
      if first.Some? {
        EdgeDefaultsAreNotScoped(lex, stmts[1..], first.value);
        Overlaid(c.edgeDefaults, OverlayOf(lex, s), EdgeOverlay(lex, stmts[1..]));
      }
    }
  }

  lemma Overlaid(a: Attrs, b: Attrs, c: Attrs)
    ensures a + b + c == a + (b + c) && a + map[] == a
  {
  }

  lemma OverlayStep(lex: Lexicon, stmts: seq<Stmt>)
    ensures EdgeOverlay(lex, stmts) ==
      if stmts == [] then map[] else OverlayOf(lex, stmts[0]) + EdgeOverlay(lex, stmts[1..])
  {
  }

  lemma SubgraphOverlay(lex: Lexicon, s: Stmt)
    requires s.Subgraph?
    ensures OverlayOf(lex, s) == EdgeOverlay(lex, s.body)
  {
  }

  lemma SubgraphMeaning(lex: Lexicon, s: Stmt, c: Parse)
    requires s.Subgraph?
    ensures var inner := MeaningAll(lex, s.body, c);
      var r := Meaning(lex, s, c);
      r == (if inner.None? then None else Some(CloseSubgraph(lex, c, inner.value))) &&
      (r.Some? ==> r.value.edgeDefaults == inner.value.edgeDefaults && r.value.nodeDefaults == c.nodeDefaults &&
                   "label" !in r.value.graphAttrs)
  {
    hide Classed;
    hide MeaningAll;
  }

  lemma StatementEdgeDefaults(lex: Lexicon, s: Stmt, c: Parse)
    requires !s.Subgraph?
    ensures var r := Meaning(lex, s, c);
      r.Some? ==> r.value.edgeDefaults == c.edgeDefaults + OverlayOf(lex, s)
  {
    hide AsMap;
    hide Read;
    hide Chained;
    hide SetPairs;
    hide Set;
    assert c.edgeDefaults + map[] == c.edgeDefaults;
    match s {
      case GraphBlock(pairs) => SetPairsKeeps(lex, c, Read(lex, pairs, []));
      case Assignment(key, raw) => SetKeeps(lex, c, key, lex.value("", raw));
      case Chain(ids, block) => ChainKeepsDefaults(lex, c, ids, ReadOptional(lex, block));
      case _ =>
    }
  }

  /** A subgraph leaves the edge defaults as they were exactly when its edge blocks only repeat them; node defaults it always restores. */
  lemma SubgraphKeepsEdgeDefaultsExactly(lex: Lexicon, name: Option<string>, body: seq<Stmt>, c: Parse)
    requires Meaning(lex, Subgraph(name, body), c).Some?
    ensures var r := Meaning(lex, Subgraph(name, body), c).value;
      var overlay := EdgeOverlay(lex, body);
      && r.nodeDefaults == c.nodeDefaults
      && (r.edgeDefaults == c.edgeDefaults <==> forall k :: k in overlay ==> k in c.edgeDefaults && c.edgeDefaults[k] == overlay[k])
  {
    hide MeaningAll;
    hide EdgeOverlay;
    SubgraphMeaning(lex, Subgraph(name, body), c);
    EdgeDefaultsAreNotScoped(lex, body, c);
    hide Meaning;
    var overlay := EdgeOverlay(lex, body);
    if c.edgeDefaults + overlay == c.edgeDefaults {
      forall k | k in overlay ensures k in c.edgeDefaults && c.edgeDefaults[k] == overlay[k] {
        assert k in c.edgeDefaults + overlay && (c.edgeDefaults + overlay)[k] == overlay[k];
      }
    }
  }

  /** The graph label in force. */
  function LabelOf(attrs: Attrs): Option<string> {
    if "label" in attrs then Some(attrs["label"]) else None
  }

  function PairLabel(pairs: Assoc<string, string>, before: Option<string>): Option<string>
    decreases |pairs|
  {
    if pairs == [] then before
    else PairLabel(pairs[1..], if pairs[0].0 == "label" then Some(pairs[0].1) else before)
  }

  /** The label after a list: the last one set at its own level since its last subgraph, which uses up any before. */
  function LabelAfter(lex: Lexicon, stmts: seq<Stmt>, before: Option<string>): Option<string>
    decreases |stmts|
  {
    if stmts == [] then before else LabelAfter(lex, stmts[1..], LabelStep(lex, stmts[0], before))
  }

  function LabelStep(lex: Lexicon, s: Stmt, before: Option<string>): Option<string> {
    match s
    case GraphBlock(pairs) => PairLabel(Read(lex, pairs, []), before)
    case Assignment(key, raw) => if key == "label" then Some(lex.value("", raw)) else before
    case Subgraph(_, _) => None
    case _ => before
  }

  lemma SetLabel(lex: Lexicon, c: Parse, key: string, value: string)
    ensures var r := Set(lex, c, key, value);
      r.Some? ==> LabelOf(r.value.graphAttrs) == if key == "label" then Some(value) else LabelOf(c.graphAttrs)
  {
    PlaceOfLabel();
    hide PlaceOf;
  }

  lemma PlaceOfLabel()
    ensures PlaceOf("label") == Attribute
  {
    assert "label"[0] == 'l' && "goal"[0] == 'g' && "model_stylesheet"[0] == 'm' && "max_pipeline_duration"[0] == 'm';
    assert "default_max_retry"[0] == 'd' && "default_max_retries"[0] == 'd';
  }

  lemma {:induction false} SetPairsLabel(lex: Lexicon, c: Parse, pairs: Assoc<string, string>)
    ensures var r := SetPairs(lex, c, pairs);
      r.Some? ==> LabelOf(r.value.graphAttrs) == PairLabel(pairs, LabelOf(c.graphAttrs))
    decreases |pairs|
  {
    hide Set;
    hide LabelOf;
    if pairs != [] {
      SetLabel(lex, c, pairs[0].0, pairs[0].1);
      var first := Set(lex, c, pairs[0].0, pairs[0].1);
      if first.Some? { SetPairsLabel(lex, first.value, pairs[1..]); }
    }
  }

  lemma {:induction false} ChainKeepsLabel(lex: Lexicon, c: Parse, ids: seq<string>, attrs: Attrs)
    ensures var r := Chained(lex, c, ids, attrs); r.Some? ==> r.value.graphAttrs == c.graphAttrs
    decreases |ids|
  {
    if |ids| >= 2 {
      var first := Joined(lex, c, ids[0], ids[1], attrs);
      if first.Some? { ChainKeepsLabel(lex, first.value, ids[1..], attrs); }
    }
  }

  /** Exactly which label is in force after a list of statements. */
  lemma {:induction false} LabelExactly(lex: Lexicon, stmts: seq<Stmt>, c: Parse)
    ensures var r := MeaningAll(lex, stmts, c);
      r.Some? ==> LabelOf(r.value.graphAttrs) == LabelAfter(lex, stmts, LabelOf(c.graphAttrs))
    decreases |stmts|
  {
    hide MeaningAll;
    hide Read;
    hide PairLabel;
    if stmts == [] {
      MeaningOfNone(lex, c);
    } else {
      MeaningStep(lex, stmts, c);
      var s := stmts[0];
      StatementLabel(lex, s, c);
      hide Meaning;
      hide LabelOf;
      var first := Meaning(lex, s, c);
      if first.Some? { LabelExactly(lex, stmts[1..], first.value); }
    }
  }

  lemma StatementLabel(lex: Lexicon, s: Stmt, c: Parse)
    ensures var r := Meaning(lex, s, c);
      r.Some? ==> LabelOf(r.value.graphAttrs) == LabelStep(lex, s, LabelOf(c.graphAttrs))
  {
    hide AsMap;
    hide Read;
    hide Chained;
    hide SetPairs;
    hide Set;
    hide PairLabel;
    hide MeaningAll;
    match s {
      case GraphBlock(pairs) => SetPairsLabel(lex, c, Read(lex, pairs, []));
      case Assignment(key, raw) => SetLabel(lex, c, key, lex.value("", raw));
      case Chain(ids, block) => ChainKeepsLabel(lex, c, ids, ReadOptional(lex, block));
      case Subgraph(_, _) => SubgraphMeaning(lex, s, c);
      case _ =>
    }
  }

  /** A subgraph names its new nodes' class after the label in force at its end, its own or else the enclosing one, and leaves none. */
  lemma SubgraphUsesUpLabel(lex: Lexicon, name: Option<string>, body: seq<Stmt>, c: Parse)
    requires MeaningAll(lex, body, c).Some?
    ensures var inner := MeaningAll(lex, body, c).value;
      var r := Meaning(lex, Subgraph(name, body), c);
      var text := LabelAfter(lex, body, LabelOf(c.graphAttrs)).Or("");
      && r.Some? && LabelOf(r.value.graphAttrs) == None
      && r.value.nodes == if text != "" && lex.className(text) != "" then Classed(inner.nodes, c.nodes.Keys, lex.className(text))
                          else inner.nodes
  {
    hide MeaningAll;
    hide Classed;
    SubgraphMeaning(lex, Subgraph(name, body), c);
    LabelExactly(lex, body, c);
    hide Meaning;
    hide LabelAfter;
  }

  // ---------------------------------------------------------------------------
  // The engine's graph
  // ---------------------------------------------------------------------------

  const EmptyParse := Parse(map[], [], map[], map[], map[], map[])

  /** `g` has the ids and the edges of `c`. */
  ghost predicate Represents(g: Graphs.Graph, c: Parse) {
    && g.nodes.Keys == c.nodes.Keys && (forall id :: id in g.nodes ==> g.nodes[id].id == c.nodes[id].id)
    && |g.edges| == |c.edges|
    && forall i :: 0 <= i < |g.edges| ==> g.edges[i].source == c.edges[i].source && g.edges[i].target == c.edges[i].target
  }

  /** Whatever the source, a graph the parser delivers is one whose edges the engine can always follow. */
  lemma ParsedGraphIsWellFormed(lex: Lexicon, ts: seq<string>, g: Graphs.Graph)
    requires ParseTokens(lex, ts, EmptyParse).Some? && Represents(g, ParseTokens(lex, ts, EmptyParse).value)
    ensures Graphs.WellFormed(g)
  {
    ParsingGrows(lex, ts, EmptyParse);
    var c := ParseTokens(lex, ts, EmptyParse).value;
    hide ParseTokens;
    assert Registered(c);
    forall e | e in g.edges ensures e.source in g.nodes && e.target in g.nodes {
      var i :| 0 <= i < |g.edges| && g.edges[i] == e;
      assert c.edges[i] in c.edges;
    }
  }
}
