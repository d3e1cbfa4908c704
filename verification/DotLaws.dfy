/** What declarations, chains, graph attributes and subgraph labels put into a graph, attribute by attribute. */
module DotLaws {
  import opened Prelude
  import opened DotSyntax
  import opened DotRoundTrip

  // ---------------------------------------------------------------------------
  // Attribute blocks
  // ---------------------------------------------------------------------------

  /** The key a token names, with its quotes if it has any. */
  predicate KeyOf(raw: string, key: string) {
    raw == "\"" + key + "\"" || (raw == key && !(|raw| >= 2 && raw[0] == '"' && raw[|raw| - 1] == '"'))
  }

  lemma UnquotedExactly(raw: string, key: string)
    ensures KeyOf(raw, key) <==> Unquoted(raw) == key
  {
    var quoted := "\"" + key + "\"";
    assert quoted[1..|quoted| - 1] == key;
    if |raw| >= 2 && raw[0] == '"' && raw[|raw| - 1] == '"' { assert raw == "\"" + raw[1..|raw| - 1] + "\""; }
  }

  lemma {:induction false} AsMapExactly(pairs: Assoc<string, string>)
    requires DistinctKeys(pairs)
    ensures forall k :: k in AsMap(pairs) <==> Has(pairs, k)
    ensures forall e :: e in pairs ==> e.0 in AsMap(pairs) && AsMap(pairs)[e.0] == e.1
  {
    if pairs != [] {
      var n := |pairs| - 1;
      AsMapExactly(pairs[..n]);
      forall k ensures k in AsMap(pairs) <==> Has(pairs, k) {
        if Has(pairs[..n], k) {
          var i :| 0 <= i < n && pairs[..n][i].0 == k;
          assert pairs[i].0 == k;
        }
        if Has(pairs, k) {
          var i :| 0 <= i < |pairs| && pairs[i].0 == k;
          if i < n { assert pairs[..n][i].0 == k; }
        }
      }
      forall e | e in pairs ensures e.0 in AsMap(pairs) && AsMap(pairs)[e.0] == e.1 {
        var i :| 0 <= i < |pairs| && pairs[i] == e;
        if i < n { assert pairs[..n][i] == e; }
      }
    }
  }

  lemma {:induction false} ReadSnoc(lex: Lexicon, pairs: Pairs, last: (string, string), acc: Assoc<string, string>)
    ensures var key := Unquoted(last.0);
      Read(lex, pairs + [last], acc) == Assign(Read(lex, pairs, acc), key, lex.value(key, last.1))
    decreases |pairs|
  {
    hide Unquoted;
    hide Assign;
    if pairs == [] {
      assert pairs + [last] == [last] && [last][1..] == [];
    } else {
      assert (pairs + [last])[0] == pairs[0] && (pairs + [last])[1..] == pairs[1..] + [last];
      var key := Unquoted(pairs[0].0);
      ReadSnoc(lex, pairs[1..], last, Assign(acc, key, lex.value(key, pairs[0].1)));
    }
  }

  lemma {:induction false} ReadDistinct(lex: Lexicon, pairs: Pairs, acc: Assoc<string, string>)
    requires DistinctKeys(acc)
    ensures DistinctKeys(Read(lex, pairs, acc))
    decreases |pairs|
  {
    hide Assign;
    if pairs != [] {
      var key := Unquoted(pairs[0].0);
      AssignFacts(acc, key, lex.value(key, pairs[0].1));
      ReadDistinct(lex, pairs[1..], Assign(acc, key, lex.value(key, pairs[0].1)));
    }
  }

  /** Pair `i` is the last of the block under `key`. */
  ghost predicate LastUnder(pairs: Pairs, key: string, i: int) {
    0 <= i < |pairs| && KeyOf(pairs[i].0, key) && forall j :: i < j < |pairs| ==> !KeyOf(pairs[j].0, key)
  }

  lemma HasEntry(pairs: Assoc<string, string>, k: string)
    ensures Has(pairs, k) <==> exists e :: e in pairs && e.0 == k
  {
    if Has(pairs, k) {
      var i :| 0 <= i < |pairs| && pairs[i].0 == k;
      assert pairs[i] in pairs;
    }
  }

  lemma AssignHas(pairs: Assoc<string, string>, k: string, v: string, x: string)
    requires DistinctKeys(pairs)
    ensures Has(Assign(pairs, k, v), x) <==> x == k || Has(pairs, x)
  {
    AssignFacts(pairs, k, v);
    HasEntry(pairs, x);
    HasEntry(Assign(pairs, k, v), x);
    hide Assign;
    hide Has;
    if e :| e in pairs && e.0 == x && x != k { assert e in Assign(pairs, k, v); }
  }

  lemma AsMapAt(pairs: Assoc<string, string>, x: string)
    requires DistinctKeys(pairs)
    ensures x in AsMap(pairs) <==> Has(pairs, x)
    ensures x in AsMap(pairs) ==> (x, AsMap(pairs)[x]) in pairs
    ensures forall v :: (x, v) in pairs ==> x in AsMap(pairs) && AsMap(pairs)[x] == v
  {
    AsMapExactly(pairs);
    hide AsMap;
    if Has(pairs, x) {
      var i :| 0 <= i < |pairs| && pairs[i].0 == x;
      assert pairs[i] in pairs;
    }
  }

  lemma AssignedAt(pairs: Assoc<string, string>, k: string, v: string, x: string)
    requires DistinctKeys(pairs)
    ensures var m, n := AsMap(Assign(pairs, k, v)), AsMap(pairs)[k := v];
      (x in m <==> x in n) && (x in m ==> m[x] == n[x])
  {
    hide AsMap;
    hide Assign;
    hide Has;
    hide DistinctKeys;
    AssignFacts(pairs, k, v);
    AssignHas(pairs, k, v, x);
    AsMapAt(pairs, x);
    AsMapAt(Assign(pairs, k, v), x);
  }

  lemma AsMapAssign(pairs: Assoc<string, string>, k: string, v: string)
    requires DistinctKeys(pairs)
    ensures AsMap(Assign(pairs, k, v)) == AsMap(pairs)[k := v]
  {
    hide AsMap;
    hide Assign;
    hide DistinctKeys;
    var m, n := AsMap(Assign(pairs, k, v)), AsMap(pairs)[k := v];
    forall x ensures (x in m <==> x in n) && (x in m ==> m[x] == n[x]) { AssignedAt(pairs, k, v, x); }
    assert m == n;
  }

  lemma {:induction false} ReadLookup(lex: Lexicon, pairs: Pairs, key: string)
    ensures key in AsMap(Read(lex, pairs, [])) <==> exists i :: LastUnder(pairs, key, i)
    ensures forall i :: LastUnder(pairs, key, i) ==>
      key in AsMap(Read(lex, pairs, [])) && AsMap(Read(lex, pairs, []))[key] == lex.value(key, pairs[i].1)
    decreases |pairs|
  {
    if pairs == [] {
    } else {
      var n := |pairs| - 1;
      var front, last := pairs[..n], pairs[n];
      assert pairs == front + [last];
      ReadLookup(lex, front, key);
      ReadSnoc(lex, front, last, []);
      ReadDistinct(lex, front, []);
      var name := Unquoted(last.0);
      AsMapAssign(Read(lex, front, []), name, lex.value(name, last.1));
      UnquotedExactly(last.0, key);
      hide Read;
      hide Assign;
      hide AsMap;
      hide Unquoted;
      LastMoves(front, last, key);
      hide LastUnder;
    }
  }

  lemma LastMoves(front: Pairs, last: (string, string), key: string)
    ensures forall i :: LastUnder(front + [last], key, i) <==>
      if KeyOf(last.0, key) then i == |front| else LastUnder(front, key, i)
    ensures forall i :: LastUnder(front, key, i) ==> (front + [last])[i] == front[i]
    ensures (front + [last])[|front|] == last
  {
    hide KeyOf;
    forall i: nat ensures LastUnder(front + [last], key, i) <==>
      if KeyOf(last.0, key) then i == |front| else LastUnder(front, key, i)
    {
      if i < |front| && LastUnder(front + [last], key, i) {
        assert !KeyOf((front + [last])[|front|].0, key);
        forall j | i < j < |front| ensures !KeyOf(front[j].0, key) { assert (front + [last])[j] == front[j]; }
      }
    }
  }

  /** A block gives each key the value of the last pair under it, quoted or not, and no other keys. */
  lemma LastPairWins(lex: Lexicon, pairs: Pairs, key: string)
    ensures var attrs := ReadOptional(lex, Some(pairs));
      && (key in attrs <==> exists i :: LastUnder(pairs, key, i))
      && (forall i :: LastUnder(pairs, key, i) ==> attrs[key] == lex.value(key, pairs[i].1))
    ensures ReadOptional(lex, None) == map[]
  {
    ReadLookup(lex, pairs, key);
    hide AsMap;
    hide Read;
    hide LastUnder;
  }

  /** Separators: commas and semicolons, any number of them. */
  predicate Gap(ts: seq<string>) {
    forall i :: 0 <= i < |ts| ==> ts[i] == "," || ts[i] == ";"
  }

  /** Pairs, each followed by some gap. */
  function Loose(pairs: Pairs, gaps: seq<seq<string>>): seq<string>
    requires |gaps| == |pairs|
  {
    if pairs == [] then [] else [pairs[0].0, "=", pairs[0].1] + gaps[0] + Loose(pairs[1..], gaps[1..])
  }

  lemma {:induction false} GapIsSkipped(lex: Lexicon, before: seq<string>, gap: seq<string>, after: seq<string>, end: nat, acc: Assoc<string, string>)
    requires Gap(gap) && |before| + |gap| <= end < |before + gap + after|
    ensures PairsFrom(lex, before + gap + after, |before|, end, acc) ==
            PairsFrom(lex, before + gap + after, |before| + |gap|, end, acc)
    decreases |gap|
  {
    if gap != [] {
      var ts := before + gap + after;
      assert ts[|before|] == gap[0];
      assert (before + [gap[0]]) + gap[1..] + after == ts;
      GapIsSkipped(lex, before + [gap[0]], gap[1..], after, end, acc);
    }
  }

  lemma PairIsTaken(lex: Lexicon, ts: seq<string>, i: nat, end: nat, key: string, raw: string, acc: Assoc<string, string>)
    requires i + 3 <= end < |ts| && ts[i] == key && ts[i + 1] == "=" && ts[i + 2] == raw && key != "," && key != ";"
    ensures var name := Unquoted(key);
      PairsFrom(lex, ts, i, end, acc) == PairsFrom(lex, ts, i + 3, end, Assign(acc, name, lex.value(name, raw)))
  {
    hide Assign;
    hide Unquoted;
  }

  /** The pairs of a loosely written block, read from any point on. */
  lemma {:induction false} LoosePairs(lex: Lexicon, before: seq<string>, pairs: Pairs, gaps: seq<seq<string>>, after: seq<string>,
                                      acc: Assoc<string, string>)
    requires |gaps| == |pairs| && WordPairs(pairs) && (forall gap :: gap in gaps ==> Gap(gap)) && after != []
    ensures PairsFrom(lex, before + Loose(pairs, gaps) + after, |before|, |before| + |Loose(pairs, gaps)|, acc) == Read(lex, pairs, acc)
    decreases |pairs|
  {
    hide PairsFrom;
    hide Assign;
    hide Unquoted;
    var ts, end := before + Loose(pairs, gaps) + after, |before| + |Loose(pairs, gaps)|;
    if pairs == [] {
      NoMorePairs(lex, ts, end, acc);
    } else {
      var pair, rest := [pairs[0].0, "=", pairs[0].1], Loose(pairs[1..], gaps[1..]);
      assert gaps[0] in gaps && Word(pairs[0].0);
      var key := Unquoted(pairs[0].0);
      var next := Assign(acc, key, lex.value(key, pairs[0].1));
      assert Loose(pairs, gaps) == pair + gaps[0] + rest;
      hide Loose;
      assert ts == (before + pair) + gaps[0] + (rest + after);
      assert ts == (before + pair + gaps[0]) + rest + after;
      assert ts[|before|] == pair[0] && ts[|before| + 1] == pair[1] && ts[|before| + 2] == pair[2];
      PairIsTaken(lex, ts, |before|, end, pairs[0].0, pairs[0].1, acc);
      GapIsSkipped(lex, before + pair, gaps[0], rest + after, end, next);
      LoosePairs(lex, before + pair + gaps[0], pairs[1..], gaps[1..], after, next);
    }
  }

  lemma {:induction false} LooseIsFlat(pairs: Pairs, gaps: seq<seq<string>>)
    requires |gaps| == |pairs| && WordPairs(pairs) && forall gap :: gap in gaps ==> Gap(gap)
    ensures Flat(Loose(pairs, gaps), "[", "]")
  {
    if pairs != [] {
      assert gaps[0] in gaps && Word(pairs[0].0) && Word(pairs[0].1);
      LooseIsFlat(pairs[1..], gaps[1..]);
      assert "="[0] == '=' && ","[0] == ',' && ";"[0] == ';' && "["[0] == '[' && "]"[0] == ']';
      FlatConcat([pairs[0].0, "=", pairs[0].1], gaps[0]);
      FlatConcat([pairs[0].0, "=", pairs[0].1] + gaps[0], Loose(pairs[1..], gaps[1..]));
    }
  }

  lemma FlatConcat(a: seq<string>, b: seq<string>)
    requires Flat(a, "[", "]") && Flat(b, "[", "]")
    ensures Flat(a + b, "[", "]")
  {
  }

  lemma FlatBlockEnds(inside: seq<string>, rest: seq<string>)
    requires Flat(inside, "[", "]")
    ensures var ts := ["["] + inside + ["]"] + rest;
      BlockEnd(ts) == 1 + |inside| && ts[BlockEnd(ts) + 1..] == rest
  {
    hide Close;
    var ts, n := ["["] + inside + ["]"] + rest, |inside|;
    assert ts[1..1 + n] == inside && ts[1 + n] == "]" && ts[0] == "[";
    OpenerCounts(ts);
    PassFlat(ts, 1, n, 1, "[", "]");
    CloserEnds(ts, 1 + n);
  }

  lemma GapIsFlat(lead: seq<string>)
    requires Gap(lead)
    ensures Flat(lead, "[", "]")
  {
    assert "["[0] == '[' && "]"[0] == ']' && ","[0] == ',' && ";"[0] == ';';
  }

  /** However its pairs are set apart, by commas, semicolons, several of them or nothing, a block reads as its pairs. */
  lemma LooseBlockReads(lex: Lexicon, lead: seq<string>, pairs: Pairs, gaps: seq<seq<string>>, rest: seq<string>)
    requires |gaps| == |pairs| && WordPairs(pairs) && Gap(lead) && forall gap :: gap in gaps ==> Gap(gap)
    ensures var ts := ["["] + (lead + Loose(pairs, gaps)) + ["]"] + rest;
      Block(lex, ts) == Read(lex, pairs, []) && ts[BlockEnd(ts) + 1..] == rest
  {
    hide PairsFrom;
    hide Read;
    hide BlockEnd;
    hide Loose;
    hide Flat;
    LooseIsFlat(pairs, gaps);
    GapIsFlat(lead);
    var body, tail := Loose(pairs, gaps), ["]"] + rest;
    FlatConcat(lead, body);
    FlatBlockEnds(lead + body, rest);
    GapIsSkipped(lex, ["["], lead, body + tail, 1 + |lead + body|, []);
    LoosePairs(lex, ["["] + lead, pairs, gaps, tail, []);
    hide Gap;
    hide WordPairs;
    var ts := ["["] + (lead + body) + ["]"] + rest;
    assert ts == ["["] + lead + (body + tail);
    assert ts == (["["] + lead) + body + tail;
  }

  lemma OpenerCounts(ts: seq<string>)
    requires ts != [] && ts[0] == "["
    ensures BlockEnd(ts) == Close(ts, 1, 1, "[", "]")
  {
  }

  lemma CloserEnds(ts: seq<string>, i: nat)
    requires i < |ts| && ts[i] == "]"
    ensures Close(ts, i, 1, "[", "]") == i
  {
    assert "["[0] != "]"[0];
  }

  // ---------------------------------------------------------------------------
  // Nodes
  // ---------------------------------------------------------------------------

  /** What a declaration says of `key`: its own attribute, else the default in force, else nothing. */
  predicate Told(defaults: Attrs, explicit: Attrs, key: string, v: Option<string>) {
    if key in explicit then v == Some(explicit[key]) else if key in defaults then v == Some(defaults[key]) else v == None
  }

  /** A text field takes what is told unless that is empty; then it stays as it was. */
  predicate TakesText(before: string, told: Option<string>, after: string) {
    after == if told.Some? && told.value != "" then told.value else before
  }

  /** The shape takes what is told, but a default box never replaces a shape. */
  predicate TakesShape(before: Option<string>, explicit: bool, told: Option<string>, after: string) {
    after == if told.Some? && (explicit || told.value != "box" || before.None?) then told.value else before.Or("box")
  }

  predicate PlainKey(key: string) {
    key != "shape" && key != "label" && key != "type" && key != "prompt"
  }

  /** Attribute `key` of a node after a declaration of it. */
  predicate TakesAttribute(before: Attrs, told: Option<string>, after: Attrs, key: string) {
    if told.Some? then key in after && after[key] == told.value
    else (key in after <==> key in before) && (key in after ==> after[key] == before[key])
  }

  /** Nothing but the node `id` is touched. */
  ghost predicate OnlyNode(c: Parse, r: Parse, id: string) {
    && r == c.(nodes := r.nodes) && id in r.nodes && r.nodes[id].id == (if id in c.nodes then c.nodes[id].id else id)
    && forall other :: other != id ==> (other in r.nodes <==> other in c.nodes) && (other in c.nodes ==> r.nodes[other] == c.nodes[other])
  }

  lemma DeclaredShape(c: Parse, id: string, explicit: Attrs, told: Option<string>)
    requires Told(c.nodeDefaults, explicit, "shape", told)
    ensures var r := Declared(c, id, explicit);
      OnlyNode(c, r, id) &&
      TakesShape(if id in c.nodes then Some(c.nodes[id].shape) else None, "shape" in explicit, told, r.nodes[id].shape)
  {
    hide Kept;
  }

  lemma ToldField(defaults: Attrs, explicit: Attrs, key: string, told: Option<string>)
    requires Told(defaults, explicit, key, told)
    ensures var m := defaults + explicit;
      (key in m <==> told.Some?) && (told.Some? ==> m[key] == told.value) && Field(m, key, "") == told.Or("")
  {
  }

  lemma DeclaredTexts(c: Parse, id: string, explicit: Attrs, key: string, told: Option<string>)
    requires Told(c.nodeDefaults, explicit, key, told)
    ensures var r := Declared(c, id, explicit);
      id in r.nodes &&
      var known, n := id in c.nodes, r.nodes[id];
      && (key == "label" ==> TakesText(if known then c.nodes[id].labelText else "", told, n.labelText))
      && (key == "type" ==> TakesText(if known then c.nodes[id].kind else "", told, n.kind))
      && (key == "prompt" ==> TakesText(if known then c.nodes[id].prompt else "", told, n.prompt))
  {
    ToldField(c.nodeDefaults, explicit, key, told);
    assert "label"[0] != "type"[0] && "label"[0] != "prompt"[0] && "type"[0] != "prompt"[0];
    hide Told;
    hide Field;
  }

  lemma DeclaredAttribute(c: Parse, id: string, explicit: Attrs, key: string, told: Option<string>)
    requires Told(c.nodeDefaults, explicit, key, told) && PlainKey(key)
    ensures var r := Declared(c, id, explicit);
      id in r.nodes && TakesAttribute(if id in c.nodes then c.nodes[id].attrs else map[], told, r.nodes[id].attrs, key)
  {
    hide Kept;
    hide Field;
    assert key !in NodeFields;
  }

  /** Node `id` after a declaration of it: what became of `key`. */
  ghost predicate DeclaredAs(c: Parse, r: Parse, id: string, explicit: Attrs, key: string, told: Option<string>) {
    OnlyNode(c, r, id) &&
    var known, n := id in c.nodes, r.nodes[id];
    && (key == "shape" ==> TakesShape(if known then Some(c.nodes[id].shape) else None, key in explicit, told, n.shape))
    && (key == "label" ==> TakesText(if known then c.nodes[id].labelText else "", told, n.labelText))
    && (key == "type" ==> TakesText(if known then c.nodes[id].kind else "", told, n.kind))
    && (key == "prompt" ==> TakesText(if known then c.nodes[id].prompt else "", told, n.prompt))
    && (PlainKey(key) ==> TakesAttribute(if known then c.nodes[id].attrs else map[], told, n.attrs, key))
  }

  lemma DeclaredExactly(c: Parse, id: string, explicit: Attrs, key: string, told: Option<string>)
    requires Told(c.nodeDefaults, explicit, key, told)
    ensures DeclaredAs(c, Declared(c, id, explicit), id, explicit, key, told)
  {
    hide Declared;
    hide TakesText;
    hide TakesShape;
    hide TakesAttribute;
    var shape := if "shape" in explicit then Some(explicit["shape"])
                 else if "shape" in c.nodeDefaults then Some(c.nodeDefaults["shape"]) else None;
    DeclaredShape(c, id, explicit, shape);
    DeclaredTexts(c, id, explicit, key, told);
    if PlainKey(key) { DeclaredAttribute(c, id, explicit, key, told); }
    hide OnlyNode;
  }

  /**
   * A declaration, field by field and attribute by attribute: explicit over the defaults in force over what the node
   * had. It touches no other node.
   */
  lemma DeclarationExactly(lex: Lexicon, c: Parse, id: string, block: Option<Pairs>, key: string, told: Option<string>)
    requires Told(c.nodeDefaults, ReadOptional(lex, block), key, told)
    ensures var r := Meaning(lex, Declaration(id, block), c);
      r.Some? && DeclaredAs(c, r.value, id, ReadOptional(lex, block), key, told)
  {
    hide DeclaredAs;
    hide Declared;
    hide ReadOptional;
    hide Told;
    DeclaredExactly(c, id, ReadOptional(lex, block), key, told);
  }

  /** A node first met in an edge is what a bare declaration would make it; one that is known stays as it is. */
  lemma EdgeEndExactly(c: Parse, id: string)
    ensures Ensure(c, id) == if id in c.nodes then c else Declared(c, id, map[])
  {
    assert c.nodeDefaults + map[] == c.nodeDefaults;
  }

  // ---------------------------------------------------------------------------
  // Edges
  // ---------------------------------------------------------------------------

  /** What an edge carries under `key`. */
  predicate Carries(lex: Lexicon, e: EdgeRecord, key: string, told: Option<string>) {
    && (key == "label" ==> e.labelText == told.Or(""))
    && (key == "condition" ==> e.condition == told.Or(""))
    && (key == "weight" ==> if told.Some? then lex.weight(told.value) == Some(e.weight) else e.weight == 0)
    && (key != "label" && key != "condition" && key != "weight" ==>
          (key in e.attrs <==> told.Some?) && (told.Some? ==> e.attrs[key] == told.value))
  }

  lemma EdgeCarries(lex: Lexicon, defaults: Attrs, explicit: Attrs, ids: seq<string>, i: nat, key: string, told: Option<string>)
    requires i + 1 < |ids| && Told(defaults, explicit, key, told) && WeightOf(lex, defaults + explicit).Some?
    ensures Carries(lex, EdgesOf(ids, defaults + explicit, WeightOf(lex, defaults + explicit).value)[i], key, told)
  {
    var m := defaults + explicit;
    ToldField(defaults, explicit, key, told);
    assert key in EdgeFields <==> key == "label" || key == "condition" || key == "weight";
    assert "label"[0] != "condition"[0] && "label"[0] != "weight"[0] && "condition"[0] != "weight"[0];
    hide Told;
    var e := EdgesOf(ids, m, WeightOf(lex, m).value)[i];
    assert e == EdgeRecord(ids[i], ids[i + 1], Field(m, "label", ""), Field(m, "condition", ""), WeightOf(lex, m).value, m - EdgeFields);
    hide EdgesOf;
  }

  /** Edge `i` of a chain: its ends, and its attributes, explicit over the edge defaults in force. */
  lemma ChainEdgeExactly(lex: Lexicon, c: Parse, ids: seq<string>, block: Option<Pairs>, i: nat, key: string, told: Option<string>)
    requires Meaning(lex, Chain(ids, block), c).Some? && i + 1 < |ids| && Told(c.edgeDefaults, ReadOptional(lex, block), key, told)
    ensures var edges := Meaning(lex, Chain(ids, block), c).value.edges;
      |edges| == |c.edges| + |ids| - 1 && edges[..|c.edges|] == c.edges &&
      var e := edges[|c.edges| + i];
      e.source == ids[i] && e.target == ids[i + 1] && Carries(lex, e, key, told)
  {
    hide Chained;
    hide EdgesOf;
    hide WeightOf;
    hide Carries;
    hide Told;
    hide ReadOptional;
    var explicit := ReadOptional(lex, block);
    ChainAddsItsEdges(lex, c, ids, explicit);
    EdgeCarries(lex, c.edgeDefaults, explicit, ids, i, key, told);
  }

  // ---------------------------------------------------------------------------
  // Graph attributes and subgraph classes
  // ---------------------------------------------------------------------------

  /** Where a graph attribute goes: four names to fields of the graph, one of them under two spellings, all others to its attributes. */
  predicate GoesTo(lex: Lexicon, c: Parse, r: Option<Parse>, key: string, value: string) {
    && (key == "goal" || key == "model_stylesheet" ==> r == Some(c.(graphFields := c.graphFields[key := value])))
    && (key == "default_max_retry" || key == "default_max_retries" ==>
          r == Some(c.(graphFields := c.graphFields["default_max_retry" := value])))
    && (key == "max_pipeline_duration" ==>
          match lex.duration(value)
          case Some(d) => r == Some(c.(graphFields := c.graphFields[key := d]))
          case None => r == None)
    && (key !in {"goal", "model_stylesheet", "default_max_retry", "default_max_retries", "max_pipeline_duration"} ==>
          r == Some(c.(graphAttrs := c.graphAttrs[key := value])))
  }

  lemma SetExactly(lex: Lexicon, c: Parse, key: string, value: string)
    ensures GoesTo(lex, c, Set(lex, c, key, value), key, value)
  {
    assert |"goal"| == 4 && |"model_stylesheet"| == 16 && |"default_max_retry"| == 17 && |"default_max_retries"| == 19;
    assert |"max_pipeline_duration"| == 21;
  }

  /** An assignment at graph level sets that attribute. */
  lemma AssignmentExactly(lex: Lexicon, c: Parse, key: string, raw: string)
    ensures GoesTo(lex, c, Meaning(lex, Assignment(key, raw), c), key, lex.value("", raw))
  {
    hide GoesTo;
    hide Set;
    SetExactly(lex, c, key, lex.value("", raw));
  }

  lemma {:induction false} SetPairsSnoc(lex: Lexicon, c: Parse, pairs: Assoc<string, string>, e: (string, string))
    ensures var r := SetPairs(lex, c, pairs);
      SetPairs(lex, c, pairs + [e]) == if r.None? then None else Set(lex, r.value, e.0, e.1)
    decreases |pairs|
  {
    hide Set;
    if pairs == [] {
      assert pairs + [e] == [e] && [e][1..] == [];
    } else {
      assert (pairs + [e])[1..] == pairs[1..] + [e] && (pairs + [e])[0] == pairs[0];
      var first := Set(lex, c, pairs[0].0, pairs[0].1);
      if first.Some? { SetPairsSnoc(lex, first.value, pairs[1..], e); }
    }
  }

  /** A graph block sets its attributes one after the other: an empty one nothing, a longer one its last after all before it. */
  lemma GraphBlockExactly(lex: Lexicon, c: Parse, pairs: Pairs, front: Assoc<string, string>, last: (string, string))
    requires Read(lex, pairs, []) == front + [last] && SetPairs(lex, c, front).Some?
    ensures GoesTo(lex, SetPairs(lex, c, front).value, Meaning(lex, GraphBlock(pairs), c), last.0, last.1)
    ensures SetPairs(lex, c, []) == Some(c)
  {
    hide GoesTo;
    hide Read;
    hide Set;
    SetPairsSnoc(lex, c, front, last);
    SetExactly(lex, SetPairs(lex, c, front).value, last.0, last.1);
    hide SetPairs;
  }

  /** A subgraph's body acts on the graph as if it stood outside, but for node classes, node defaults and the label. */
  lemma SubgraphExactly(lex: Lexicon, name: Option<string>, body: seq<Stmt>, c: Parse)
    ensures var inner, r := MeaningAll(lex, body, c), Meaning(lex, Subgraph(name, body), c);
      && (r.Some? <==> inner.Some?)
      && (r.Some? ==> r.value.edges == inner.value.edges && r.value.edgeDefaults == inner.value.edgeDefaults &&
                      r.value.graphFields == inner.value.graphFields && r.value.nodes.Keys == inner.value.nodes.Keys &&
                      r.value.nodeDefaults == c.nodeDefaults && r.value.graphAttrs == inner.value.graphAttrs - {"label"})
  {
    hide MeaningAll;
  }

  /** A subgraph's class goes to every node that is new in it and has none of its own, and to no other. */
  lemma ClassExactly(nodes: map<string, NodeRecord>, before: set<string>, name: string, id: string)
    ensures var r := Classed(nodes, before, name);
      && r.Keys == nodes.Keys
      && (id in nodes ==>
            var n := nodes[id];
            var own := "class" in n.attrs && n.attrs["class"] != "";
            r[id] == if id !in before && !own then n.(attrs := n.attrs["class" := name]) else n)
  {
  }
}
