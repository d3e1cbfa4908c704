/** checkpoint.json: writing it, reading it back, and the six-rung ladder in front of a resume (checkpoint.py). */
module CheckpointFile {
  import opened Prelude
  import opened Outcomes
  import opened Graphs
  import opened Checkpoints

  // ---------------------------------------------------------------------------
  // JSON values, parsed. `Diagnostic` is the text of a message the engine generated.
  // ---------------------------------------------------------------------------

  datatype Json =
    | JNull
    | JBool(b: bool)
    | JInt(n: int)
    | JText(t: string)
    | Diagnostic(m: Message)
    | JList(items: seq<Json>)
    | JObject(fields: Assoc<string, Json>)

  datatype FileState = Missing | Garbage | Parsed(json: Json)

  // ---------------------------------------------------------------------------
  // Maps as entry lists
  // ---------------------------------------------------------------------------

  lemma {:induction false} LeastKey(keys: set<string>) returns (least: string)
    requires keys != {}
    ensures least in keys && forall k :: k in keys ==> LexLe(least, k)
  {
    var x :| x in keys;
    var rest := keys - {x};
    LexTotal(x, x);
    if rest == {} {
      least := x;
      forall k | k in keys ensures LexLe(least, k) { assert k !in rest; }
    } else {
      var y := LeastKey(rest);
      LexTotal(x, y);
      least := if LexLe(x, y) then x else y;
      forall k | k in keys ensures LexLe(least, k) {
        if k != x { assert k in rest; if least == x { LexTransitive(x, y, k); } }
      }
    }
  }

  /** A map as a list of entries, by ascending key. */
  function Entries<T>(m: map<string, T>): (r: Assoc<string, T>)
    decreases |m|
  {
    if m == map[] then []
    else
      assert m.Keys != {};
      assert exists least :: least in m.Keys && forall k :: k in m.Keys ==> LexLe(least, k) by {
        var least := LeastKey(m.Keys);
      }
      assert forall a, b :: LexLe(a, b) && LexLe(b, a) ==> a == b by {
        forall a, b | LexLe(a, b) && LexLe(b, a) ensures a == b { LexTotal(a, b); }
      }
      var k :| k in m.Keys && forall other :: other in m.Keys ==> LexLe(k, other);
      [(k, m[k])] + Entries(m - {k})
  }

  function Collect<T>(entries: Assoc<string, T>): map<string, T> {
    if entries == [] then map[] else Collect(entries[1..])[entries[0].0 := entries[0].1]
  }

  lemma {:induction false} CollectEntries<T>(m: map<string, T>)
    ensures Collect(Entries(m)) == m
    decreases |m|
  {
    if m != map[] {
      var e := Entries(m);
      assert e[1..] == Entries(m - {e[0].0});
      CollectEntries(m - {e[0].0});
      assert (m - {e[0].0})[e[0].0 := e[0].1] == m;
    }
  }

  // ---------------------------------------------------------------------------
  // Lists of values and of fields
  // ---------------------------------------------------------------------------

  function EncodeList<T>(xs: seq<T>, encode: T -> Json): seq<Json> {
    if xs == [] then [] else [encode(xs[0])] + EncodeList(xs[1..], encode)
  }

  function DecodeList<T>(js: seq<Json>, decode: Json -> Option<T>): Option<seq<T>> {
    if js == [] then Some([])
    else
      var head, tail := decode(js[0]), DecodeList(js[1..], decode);
      if head.Some? && tail.Some? then Some([head.value] + tail.value) else None
  }

  lemma {:induction false} ListRoundTrip<T>(xs: seq<T>, encode: T -> Json, decode: Json -> Option<T>)
    requires forall x :: decode(encode(x)) == Some(x)
    ensures DecodeList(EncodeList(xs, encode), decode) == Some(xs)
  {
    if xs != [] {
      ListRoundTrip(xs[1..], encode, decode);
      assert EncodeList(xs, encode)[1..] == EncodeList(xs[1..], encode);
      assert [xs[0]] + xs[1..] == xs;
    }
  }

  function EncodeFields<T>(a: Assoc<string, T>, encode: T -> Json): Assoc<string, Json> {
    if a == [] then [] else [(a[0].0, encode(a[0].1))] + EncodeFields(a[1..], encode)
  }

  function DecodeFields<T>(a: Assoc<string, Json>, decode: Json -> Option<T>): Option<Assoc<string, T>> {
    if a == [] then Some([])
    else
      var head, tail := decode(a[0].1), DecodeFields(a[1..], decode);
      if head.Some? && tail.Some? then Some([(a[0].0, head.value)] + tail.value) else None
  }

  lemma {:induction false} FieldsRoundTrip<T>(a: Assoc<string, T>, encode: T -> Json, decode: Json -> Option<T>)
    requires forall x :: decode(encode(x)) == Some(x)
    ensures DecodeFields(EncodeFields(a, encode), decode) == Some(a)
  {
    if a != [] {
      FieldsRoundTrip(a[1..], encode, decode);
      assert [(a[0].0, a[0].1)] + a[1..] == a;
    }
  }

  // ---------------------------------------------------------------------------
  // The parts of a checkpoint
  // ---------------------------------------------------------------------------

  function TextJson(s: string): Json { JText(s) }

  function JsonText(j: Json): Option<string> {
    if j.JText? then Some(j.t) else None
  }

  function NatJson(n: nat): Json { JInt(n) }

  function JsonNat(j: Json): Option<nat> {
    if j.JInt? && j.n >= 0 then Some(j.n) else None
  }

  function ValueJson(v: Value): Json {
    match v case Null => JNull case Text(t) => JText(t)
  }

  function JsonValue(j: Json): Option<Value> {
    match j case JNull => Some(Null) case JText(t) => Some(Text(t)) case _ => None
  }

  function IdJson(id: RawId): Json {
    match id case StrId(s) => JText(s) case IntId(n) => JInt(n) case OtherId => JNull
  }

  function JsonId(j: Json): Option<RawId> {
    match j case JText(t) => Some(StrId(t)) case JInt(n) => Some(IntId(n)) case _ => Some(OtherId)
  }

  function MessageJson(m: Option<Message>): Json {
    if m.None? then JNull else if m.value.Plain? then JText(m.value.text) else Diagnostic(m.value)
  }

  function JsonMessage(j: Json): Option<Option<Message>> {
    match j
    case JNull => Some(None)
    case JText(t) => Some(Some(Plain(t)))
    case Diagnostic(m) => if m.Plain? then None else Some(Some(m))
    case _ => None
  }

  function LabelJson(s: Option<string>): Json {
    if s.None? then JNull else JText(s.value)
  }

  function JsonLabel(j: Json): Option<Option<string>> {
    match j case JNull => Some(None) case JText(t) => Some(Some(t)) case _ => None
  }

  function IdsJson(ids: Option<seq<RawId>>): Json {
    if ids.None? then JNull else JList(EncodeList(ids.value, IdJson))
  }

  function JsonIds(j: Json): Option<Option<seq<RawId>>> {
    match j
    case JNull => Some(None)
    case JList(items) => (var ids := DecodeList(items, JsonId); if ids.Some? then Some(Some(ids.value)) else None)
    case _ => None
  }

  function RecordJson(r: OutcomeRecord): Json {
    JObject([("status", JText(r.status)), ("preferred_label", LabelJson(r.preferredLabel)),
             ("suggested_next_ids", IdsJson(r.suggestedNextIds)), ("is_explicit", JBool(r.isExplicit)),
             ("failure_reason", MessageJson(r.failureReason)), ("notes", MessageJson(r.notes))])
  }

  /** `d.get(key)` on a parsed object. */
  function Get(j: Json, key: string): Json {
    if j.JObject? then Lookup(j.fields, key).Or(JNull) else JNull
  }

  function JsonRecord(j: Json): Option<OutcomeRecord> {
    var status, tag, ids := JsonText(Get(j, "status")), JsonLabel(Get(j, "preferred_label")), JsonIds(Get(j, "suggested_next_ids"));
    var explicit, reason, notes := Get(j, "is_explicit"), JsonMessage(Get(j, "failure_reason")), JsonMessage(Get(j, "notes"));
    if j.JObject? && status.Some? && tag.Some? && ids.Some? && explicit.JBool? && reason.Some? && notes.Some? then
      Some(Record(status.value, tag.value, ids.value, explicit.b, reason.value, notes.value))
    else None
  }

  lemma RecordJsonRoundTrip(r: OutcomeRecord)
    ensures JsonRecord(RecordJson(r)) == Some(r)
  {
    hide Lookup;
    hide EncodeList;
    hide DecodeList;
    var f := RecordJson(r).fields;
    RecordFields(r);
    if r.suggestedNextIds.Some? { ListRoundTrip(r.suggestedNextIds.value, IdJson, JsonId); }
    assert JsonIds(IdsJson(r.suggestedNextIds)) == Some(r.suggestedNextIds);
    hide IdsJson;
    hide JsonIds;
    assert JsonMessage(MessageJson(r.failureReason)) == Some(r.failureReason);
    assert JsonMessage(MessageJson(r.notes)) == Some(r.notes);
    hide MessageJson;
    hide JsonMessage;
  }

  lemma RecordFields(r: OutcomeRecord)
    ensures var j := RecordJson(r);
      && Get(j, "status") == JText(r.status) && Get(j, "preferred_label") == LabelJson(r.preferredLabel)
      && Get(j, "suggested_next_ids") == IdsJson(r.suggestedNextIds) && Get(j, "is_explicit") == JBool(r.isExplicit)
      && Get(j, "failure_reason") == MessageJson(r.failureReason) && Get(j, "notes") == MessageJson(r.notes)
  {
    hide Lookup;
    hide IdsJson;
    hide MessageJson;
    hide LabelJson;
    var f := RecordJson(r).fields;
    FieldNames();
    LookupFirst(f, "status", 0);
    LookupFirst(f, "preferred_label", 1);
    LookupFirst(f, "suggested_next_ids", 2);
    LookupFirst(f, "is_explicit", 3);
    LookupFirst(f, "failure_reason", 4);
    LookupFirst(f, "notes", 5);
  }

  /** No two keys of a record are the same text. */
  lemma FieldNames()
    ensures "status"[0] != "preferred_label"[0]
    ensures |"status"| == 6 && |"preferred_label"| == 15 && |"suggested_next_ids"| == 18
    ensures |"is_explicit"| == 11 && |"failure_reason"| == 14 && |"notes"| == 5
  {
  }

  // ---------------------------------------------------------------------------
  // Writing
  // ---------------------------------------------------------------------------

  function CountersJson(c: EngineCounters): Json {
    JObject([("iteration_count", JInt(c.iterationCount)),
             ("node_execution_counts", JObject(EncodeFields(Entries(c.executionCounts), NatJson))),
             ("goal_gate_retries", JInt(c.gateRetries)),
             ("failure_routing_retries", JInt(c.routeRetries)),
             ("steps", JInt(c.steps))])
  }

  function IdentityJson(g: GraphIdentity): Json {
    JObject([("fingerprint", JText(g.fingerprint)), ("dot_source", JText(g.dotSource))])
  }

  /** `save_checkpoint`. */
  function Save(c: Checkpoint): Json {
    JObject([("current_node", JText(c.currentNode)),
             ("completed_nodes", JList(EncodeList(c.completedNodes, TextJson))),
             ("context", JObject(EncodeFields(Entries(c.context), ValueJson))),
             ("node_retries", JObject(EncodeFields(c.nodeRetries, NatJson))),
             ("schema_version", JInt(c.schemaVersion)),
             ("run_state", JText(c.runState)),
             ("node_outcomes", JObject(EncodeFields(c.nodeOutcomes, RecordJson))),
             ("engine_state", CountersJson(c.counters)),
             ("graph", IdentityJson(c.graph))])
  }

  // ---------------------------------------------------------------------------
  // Reading
  // ---------------------------------------------------------------------------

  /** A checkpoint as loaded: the loader fixes a few shapes and leaves the rest as found. */
  datatype Loaded = Loaded(
    currentNode: Json,
    completedNodes: seq<Json>,
    context: Json,
    nodeRetries: Json,
    schemaVersion: int,
    runState: Json,
    nodeOutcomes: Json,
    engineState: Json,
    graph: Json)

  /** Python truthiness. */
  predicate Truth(j: Json) {
    match j
    case JNull => false
    case JBool(b) => b
    case JInt(n) => n != 0
    case JText(t) => t != ""
    case Diagnostic(_) => true
    case JList(items) => items != []
    case JObject(fields) => fields != []
  }

  function OrEmpty(j: Json): Json {
    if Truth(j) then j else JObject([])
  }

  function Keys(fields: Assoc<string, Json>): seq<Json> {
    if fields == [] then [] else [JText(fields[0].0)] + Keys(fields[1..])
  }

  function Characters(t: string): seq<Json> {
    if t == "" then [] else [JText([t[0]])] + Characters(t[1..])
  }

  /** `list(raw)`, and the keys of a legacy dict: nothing when the value cannot be iterated. */
  function Listed(j: Json): Option<seq<Json>> {
    match j
    case JList(items) => Some(items)
    case JObject(fields) => Some(Keys(fields))
    case JText(t) => Some(Characters(t))
    case _ => None
  }

  predicate IsDigit(c: char) { '0' <= c <= '9' }

  /** Decimal digits with single underscores between them. */
  function DigitsValue(t: string, soFar: nat, afterDigit: bool): Option<nat> {
    if t == "" then (if afterDigit then Some(soFar) else None)
    else if IsDigit(t[0]) then DigitsValue(t[1..], 10 * soFar + (t[0] as int - '0' as int), true)
    else if t[0] == '_' && afterDigit then DigitsValue(t[1..], soFar, false)
    else None
  }

  /** `int(text)`. */
  function IntText(t: string): Option<int> {
    var s := Strip(t);
    if s != "" && s[0] == '-' then
      var n := DigitsValue(s[1..], 0, false);
      if n.Some? then Some(0 - (n.value as int)) else None
    else
      var n := DigitsValue(if s != "" && s[0] == '+' then s[1..] else s, 0, false);
      if n.Some? then Some(n.value) else None
  }

  /** `int(value)`. */
  function IntOf(j: Json): Option<int> {
    match j
    case JInt(n) => Some(n)
    case JBool(b) => Some(if b then 1 else 0)
    case JText(t) => IntText(t)
    case _ => None
  }

  function GetOr(fields: Assoc<string, Json>, key: string, default: Json): Json {
    Lookup(fields, key).Or(default)
  }

  /** A `graph` block that is not an object counts as absent; a `source_dir` in it must be text. */
  function GraphBlock(j: Json): Option<Json> {
    if !j.JObject? then Some(JObject([]))
    else
      var dir := Lookup(j.fields, "source_dir");
      if dir.Some? && !dir.value.JText? then None else Some(j)
  }

  /** `load_checkpoint` on a parsed file; nothing when it raises. */
  function Load(j: Json): Option<Loaded> {
    if !j.JObject? then None
    else
      var f := j.fields;
      var completed := Listed(GetOr(f, "completed_nodes", JList([])));
      var graph := GraphBlock(GetOr(f, "graph", JObject([])));
      var node := Lookup(f, "current_node");
      var version := IntOf(GetOr(f, "schema_version", JInt(1)));
      if completed.None? || graph.None? || node.None? || version.None? then None
      else
        Some(Loaded(node.value, completed.value, GetOr(f, "context", JObject([])), GetOr(f, "node_retries", JObject([])),
                    version.value, GetOr(f, "run_state", JText(IN_FLIGHT)), OrEmpty(GetOr(f, "node_outcomes", JNull)),
                    OrEmpty(GetOr(f, "engine_state", JNull)), graph.value))
  }

  // ---------------------------------------------------------------------------
  // What a loaded checkpoint means to the engine
  // ---------------------------------------------------------------------------

  function FieldsOf(j: Json): Assoc<string, Json> {
    if j.JObject? then j.fields else []
  }

  function MapOf<T>(j: Json, decode: Json -> Option<T>): Option<map<string, T>> {
    var entries := DecodeFields(FieldsOf(j), decode);
    if j.JObject? && entries.Some? then Some(Collect(entries.value)) else None
  }

  function JsonCounters(j: Json): Option<EngineCounters> {
    var i, counts := JsonNat(Get(j, "iteration_count")), MapOf(Get(j, "node_execution_counts"), JsonNat);
    var gate, route := JsonNat(Get(j, "goal_gate_retries")), JsonNat(Get(j, "failure_routing_retries"));
    var steps := JsonNat(Get(j, "steps"));
    if i.Some? && counts.Some? && gate.Some? && route.Some? && steps.Some? then
      Some(EngineCounters(i.value, counts.value, gate.value, route.value, steps.value))
    else None
  }

  function JsonIdentity(j: Json): Option<GraphIdentity> {
    var fingerprint, source := JsonText(Get(j, "fingerprint")), JsonText(Get(j, "dot_source"));
    if fingerprint.Some? && source.Some? then Some(GraphIdentity(fingerprint.value, source.value)) else None
  }

  /** The typed checkpoint a loaded one stands for; nothing for shapes no engine writes. */
  function Understood(l: Loaded): Option<Checkpoint> {
    var node, completed := JsonText(l.currentNode), DecodeList(l.completedNodes, JsonText);
    var context := MapOf(l.context, JsonValue);
    var retries, outcomes := DecodeFields(FieldsOf(l.nodeRetries), JsonNat), DecodeFields(FieldsOf(l.nodeOutcomes), JsonRecord);
    var state, counters, graph := JsonText(l.runState), JsonCounters(l.engineState), JsonIdentity(l.graph);
    if node.Some? && completed.Some? && context.Some? && retries.Some? && outcomes.Some? && state.Some? &&
       counters.Some? && graph.Some?
    then
      Some(Checkpoint(node.value, completed.value, context.value, retries.value, l.schemaVersion, state.value,
                      outcomes.value, counters.value, graph.value))
    else None
  }

  // ---------------------------------------------------------------------------
  // Round trip
  // ---------------------------------------------------------------------------

  lemma MapRoundTrip<T>(m: map<string, T>, encode: T -> Json, decode: Json -> Option<T>)
    requires forall x :: decode(encode(x)) == Some(x)
    ensures MapOf(JObject(EncodeFields(Entries(m), encode)), decode) == Some(m)
  {
    FieldsRoundTrip(Entries(m), encode, decode);
    CollectEntries(m);
  }

  lemma CountersRoundTrip(c: EngineCounters)
    ensures JsonCounters(CountersJson(c)) == Some(c)
  {
    hide Lookup;
    hide MapOf;
    hide EncodeFields;
    hide Entries;
    var f := CountersJson(c).fields;
    assert |"iteration_count"| == 15 && |"node_execution_counts"| == 21 && |"goal_gate_retries"| == 17;
    assert |"failure_routing_retries"| == 23 && |"steps"| == 5;
    LookupFirst(f, "iteration_count", 0);
    LookupFirst(f, "node_execution_counts", 1);
    LookupFirst(f, "goal_gate_retries", 2);
    LookupFirst(f, "failure_routing_retries", 3);
    LookupFirst(f, "steps", 4);
    MapRoundTrip(c.executionCounts, NatJson, JsonNat);
  }

  lemma IdentityRoundTrip(g: GraphIdentity)
    ensures GraphBlock(IdentityJson(g)) == Some(IdentityJson(g))
    ensures JsonIdentity(IdentityJson(g)) == Some(g)
  {
    hide Lookup;
    var f := IdentityJson(g).fields;
    assert "fingerprint"[0] == 'f' && "dot_source"[0] == 'd' && "source_dir"[0] == 's';
    LookupFirst(f, "fingerprint", 0);
    LookupFirst(f, "dot_source", 1);
    LookupMissing(f, "source_dir");
  }

  /** Which value sits under which key of a saved file. */
  lemma SavedFields(c: Checkpoint)
    ensures var f := Save(c).fields;
      && Lookup(f, "current_node") == Some(JText(c.currentNode))
      && Lookup(f, "completed_nodes") == Some(JList(EncodeList(c.completedNodes, TextJson)))
      && Lookup(f, "context") == Some(JObject(EncodeFields(Entries(c.context), ValueJson)))
      && Lookup(f, "node_retries") == Some(JObject(EncodeFields(c.nodeRetries, NatJson)))
      && Lookup(f, "schema_version") == Some(JInt(c.schemaVersion))
      && Lookup(f, "run_state") == Some(JText(c.runState))
      && Lookup(f, "node_outcomes") == Some(JObject(EncodeFields(c.nodeOutcomes, RecordJson)))
      && Lookup(f, "engine_state") == Some(CountersJson(c.counters))
      && Lookup(f, "graph") == Some(IdentityJson(c.graph))
  {
    hide Lookup;
    hide EncodeFields;
    hide EncodeList;
    hide Entries;
    hide CountersJson;
    hide IdentityJson;
    var f := Save(c).fields;
    assert |"current_node"| == 12 && |"completed_nodes"| == 15 && |"context"| == 7 && |"node_retries"| == 12;
    assert |"schema_version"| == 14 && |"run_state"| == 9 && |"node_outcomes"| == 13 && |"engine_state"| == 12;
    assert |"graph"| == 5 && "current_node"[0] == 'c' && "node_retries"[0] == 'n' && "engine_state"[0] == 'e';
    LookupFirst(f, "current_node", 0);
    LookupFirst(f, "completed_nodes", 1);
    LookupFirst(f, "context", 2);
    LookupFirst(f, "node_retries", 3);
    LookupFirst(f, "schema_version", 4);
    LookupFirst(f, "run_state", 5);
    LookupFirst(f, "node_outcomes", 6);
    LookupFirst(f, "engine_state", 7);
    LookupFirst(f, "graph", 8);
  }

  /** What loading a saved checkpoint yields, part by part. */
  function AsLoaded(c: Checkpoint): Loaded {
    Loaded(JText(c.currentNode), EncodeList(c.completedNodes, TextJson),
           JObject(EncodeFields(Entries(c.context), ValueJson)), JObject(EncodeFields(c.nodeRetries, NatJson)),
           c.schemaVersion, JText(c.runState), JObject(EncodeFields(c.nodeOutcomes, RecordJson)),
           CountersJson(c.counters), IdentityJson(c.graph))
  }

  lemma LoadsAs(c: Checkpoint)
    ensures Load(Save(c)) == Some(AsLoaded(c))
  {
    SavedFields(c);
    IdentityRoundTrip(c.graph);
    hide Lookup;
    hide EncodeFields;
    hide EncodeList;
    hide Entries;
    hide GraphBlock;
  }

  /** Loading a saved checkpoint gives back every field of it. */
  lemma SaveLoadRoundTrip(c: Checkpoint)
    ensures Load(Save(c)).Some? && Understood(Load(Save(c)).value) == Some(c)
  {
    LoadsAs(c);
    ListRoundTrip(c.completedNodes, TextJson, JsonText);
    MapRoundTrip(c.context, ValueJson, JsonValue);
    FieldsRoundTrip(c.nodeRetries, NatJson, JsonNat);
    forall r: OutcomeRecord ensures JsonRecord(RecordJson(r)) == Some(r) { RecordJsonRoundTrip(r); }
    FieldsRoundTrip(c.nodeOutcomes, RecordJson, JsonRecord);
    CountersRoundTrip(c.counters);
    IdentityRoundTrip(c.graph);
    hide Load;
    hide Save;
    hide MapOf;
    hide EncodeList;
    hide EncodeFields;
    hide DecodeList;
    hide DecodeFields;
    hide Entries;
    hide JsonCounters;
    hide CountersJson;
    hide JsonIdentity;
    hide IdentityJson;
    hide RecordJson;
    hide JsonRecord;
  }

  // ---------------------------------------------------------------------------
  // The ladder
  // ---------------------------------------------------------------------------

  datatype Rung = Exists | Parses | Version | Liveness | Identity | Structure

  /** `Crashed`: an error that no rung catches. */
  datatype Verdict = Accepted(loaded: Loaded) | Refused(rung: Rung) | Crashed

  /** `str(value)` where that is a known text. */
  function StrOf(j: Json): Option<string> {
    match j
    case JText(t) => Some(t)
    case JNull => Some("None")
    case JBool(b) => Some(if b then "True" else "False")
    case JInt(n) => Some(Decimal(n))
    case _ => None
  }

  /** `str(d.get(key, ""))`. */
  function StrField(j: Json, key: string): Option<string> {
    StrOf(GetOr(FieldsOf(j), key, JText("")))
  }

  /** Rungs 1 to 5. A supplied graph is given by the fingerprint of its source. */
  function LoadForResume(file: FileState, supplied: Option<string>): Verdict {
    match file
    case Missing => Refused(Exists)
    case Garbage => Refused(Parses)
    case Parsed(json) =>
      var loaded := Load(json);
      if loaded.None? then Refused(Parses)
      else
        var l := loaded.value;
        var recorded, source := StrField(l.graph, "fingerprint"), StrField(l.graph, "dot_source");
        if l.schemaVersion != SCHEMA_VERSION then Refused(Version)
        else if l.runState != JText(IN_FLIGHT) then (if l.context.JObject? then Refused(Liveness) else Crashed)
        else if recorded == Some("") || source == Some("") then Refused(Identity)
        else if supplied.Some? && recorded != supplied then Refused(Identity)
        else Accepted(l)
  }

  predicate Hashable(j: Json) {
    !j.JList? && !j.JObject?
  }

  predicate NamesNode(j: Json, g: Graph) {
    j.JText? && j.t in g.nodes
  }

  datatype Scan = Fine | Bad | Broken

  function ScanIds(js: seq<Json>, g: Graph): Scan {
    if js == [] then Fine
    else if !Hashable(js[0]) then Broken
    else
      var rest := ScanIds(js[1..], g);
      if rest.Broken? then Broken else if !NamesNode(js[0], g) then Bad else rest
  }

  function ScanRecords(records: Assoc<string, Json>, g: Graph): Scan {
    if records == [] then Fine
    else if records[0].0 !in g.nodes || !records[0].1.JObject? then Bad
    else
      var status := Get(records[0].1, "status");
      if !Hashable(status) then Broken
      else if !status.JText? || ParseStatus(status.t).None? then Bad
      else ScanRecords(records[1..], g)
  }

  /** Rung 6. */
  function VerifyStructure(l: Loaded, g: Graph): Verdict {
    if !Hashable(l.currentNode) then Crashed
    else if !NamesNode(l.currentNode, g) then Refused(Structure)
    else
      var ids := ScanIds(l.completedNodes, g);
      if ids.Broken? then Crashed
      else if ids.Bad? then Refused(Structure)
      else if !l.nodeOutcomes.JObject? then Crashed
      else
        var records := ScanRecords(l.nodeOutcomes.fields, g);
        if records.Broken? then Crashed else if records.Bad? then Refused(Structure) else Accepted(l)
  }

  /** The whole ladder, in order. */
  function Ladder(file: FileState, supplied: Option<string>, g: Graph): Verdict {
    var first := LoadForResume(file, supplied);
    if first.Accepted? then VerifyStructure(first.loaded, g) else first
  }

  // ---------------------------------------------------------------------------
  // What the ladder lets through
  // ---------------------------------------------------------------------------

  /** Everything in the checkpoint is about nodes of `g`, and every recorded status is one. */
  ghost predicate BelongsTo(c: Checkpoint, g: Graph) {
    && c.currentNode in g.nodes
    && (forall id :: id in c.completedNodes ==> id in g.nodes)
    && (forall e :: e in c.nodeOutcomes ==> e.0 in g.nodes && ValidRecord(e.1))
  }

  ghost predicate SourceKnown(c: Checkpoint, supplied: Option<string>) {
    c.graph.fingerprint != "" && c.graph.dotSource != "" && (supplied.Some? ==> supplied.value == c.graph.fingerprint)
  }

  lemma {:induction false} ScanIdsExactly(ids: seq<string>, g: Graph)
    ensures ScanIds(EncodeList(ids, TextJson), g) ==
      if forall id :: id in ids ==> id in g.nodes then Fine else Bad
  {
    if ids != [] {
      ScanIdsExactly(ids[1..], g);
      assert EncodeList(ids, TextJson)[1..] == EncodeList(ids[1..], TextJson);
      assert forall id :: id in ids <==> id == ids[0] || id in ids[1..];
    }
  }

  lemma StatusOfRecord(r: OutcomeRecord)
    ensures Get(RecordJson(r), "status") == JText(r.status)
  {
  }

  lemma {:induction false} ScanRecordsExactly(records: Assoc<string, OutcomeRecord>, g: Graph)
    ensures ScanRecords(EncodeFields(records, RecordJson), g) ==
      if forall e :: e in records ==> e.0 in g.nodes && ValidRecord(e.1) then Fine else Bad
  {
    hide Get;
    if records != [] {
      ScanRecordsExactly(records[1..], g);
      StatusOfRecord(records[0].1);
      assert EncodeFields(records, RecordJson)[1..] == EncodeFields(records[1..], RecordJson);
      assert forall e :: e in records <==> e == records[0] || e in records[1..];
    }
  }

  lemma IdentityFields(g: GraphIdentity)
    ensures StrField(IdentityJson(g), "fingerprint") == Some(g.fingerprint)
    ensures StrField(IdentityJson(g), "dot_source") == Some(g.dotSource)
  {
    hide Lookup;
    var f := IdentityJson(g).fields;
    assert "fingerprint"[0] == 'f' && "dot_source"[0] == 'd';
    LookupFirst(f, "fingerprint", 0);
    LookupFirst(f, "dot_source", 1);
  }

  /** The verdict on a saved checkpoint: the first requirement it misses, in ladder order. */
  lemma LadderExactly(c: Checkpoint, supplied: Option<string>, g: Graph)
    ensures Ladder(Parsed(Save(c)), supplied, g) ==
      if c.schemaVersion != SCHEMA_VERSION then Refused(Version)
      else if c.runState != IN_FLIGHT then Refused(Liveness)
      else if !SourceKnown(c, supplied) then Refused(Identity)
      else if !BelongsTo(c, g) then Refused(Structure)
      else Accepted(AsLoaded(c))
  {
    LoadsAs(c);
    IdentityFields(c.graph);
    ScanIdsExactly(c.completedNodes, g);
    ScanRecordsExactly(c.nodeOutcomes, g);
    hide Load;
    hide Save;
    hide EncodeList;
    hide EncodeFields;
    hide Entries;
    hide StrField;
    hide ScanIds;
    hide ScanRecords;
    hide IdentityJson;
    hide CountersJson;
  }

  /** Whoever wrote the file: what the ladder accepts and the engine understands can be restored against `g`. */
  lemma AcceptedIsRestorable(file: FileState, supplied: Option<string>, g: Graph, c: Checkpoint)
    requires Ladder(file, supplied, g).Accepted? && Understood(Ladder(file, supplied, g).loaded) == Some(c)
    ensures BelongsTo(c, g) && ValidRecords(c.nodeOutcomes) && SourceKnown(c, supplied)
    ensures c.schemaVersion == SCHEMA_VERSION && c.runState == IN_FLIGHT
  {
    var l := Ladder(file, supplied, g).loaded;
    AcceptedFacts(file, supplied, g);
    hide Ladder;
    DecodedIds(l.completedNodes, c.completedNodes, g);
    DecodedRecords(FieldsOf(l.nodeOutcomes), c.nodeOutcomes, g);
    hide DecodeList;
    hide DecodeFields;
    hide MapOf;
    hide JsonCounters;
    forall i | 0 <= i < |c.nodeOutcomes| ensures ValidRecord(c.nodeOutcomes[i].1) {
      assert c.nodeOutcomes[i] in c.nodeOutcomes;
    }
    IdentityText(l.graph, "fingerprint");
    IdentityText(l.graph, "dot_source");
    hide StrField;
  }

  lemma IdentityText(j: Json, key: string)
    requires JsonText(Get(j, key)).Some?
    ensures StrField(j, key) == JsonText(Get(j, key))
  {
  }

  lemma AcceptedFacts(file: FileState, supplied: Option<string>, g: Graph)
    requires Ladder(file, supplied, g).Accepted?
    ensures var l := Ladder(file, supplied, g).loaded;
      && l.schemaVersion == SCHEMA_VERSION && l.runState == JText(IN_FLIGHT)
      && StrField(l.graph, "fingerprint") != Some("") && StrField(l.graph, "dot_source") != Some("")
      && (supplied.Some? ==> StrField(l.graph, "fingerprint") == supplied)
      && NamesNode(l.currentNode, g) && ScanIds(l.completedNodes, g).Fine?
      && l.nodeOutcomes.JObject? && ScanRecords(l.nodeOutcomes.fields, g).Fine?
  {
    hide Load;
    hide StrField;
  }

  lemma {:induction false} DecodedIds(js: seq<Json>, ids: seq<string>, g: Graph)
    requires DecodeList(js, JsonText) == Some(ids) && ScanIds(js, g).Fine?
    ensures forall id :: id in ids ==> id in g.nodes
  {
    if js != [] {
      DecodedIds(js[1..], ids[1..], g);
      assert forall id :: id in ids <==> id == ids[0] || id in ids[1..];
    }
  }

  lemma {:induction false} DecodedRecords(js: Assoc<string, Json>, records: Assoc<string, OutcomeRecord>, g: Graph)
    requires DecodeFields(js, JsonRecord) == Some(records) && ScanRecords(js, g).Fine?
    ensures forall e :: e in records ==> e.0 in g.nodes && ValidRecord(e.1)
  {
    hide Get;
    if js != [] {
      DecodedRecords(js[1..], records[1..], g);
      assert forall e :: e in records <==> e == records[0] || e in records[1..];
    }
  }

  // ---------------------------------------------------------------------------
  // Files that lack something
  // ---------------------------------------------------------------------------

  /** What a field that is not there counts as. */
  predicate CountsAs(key: string, default: Json) {
    || (key == "completed_nodes" && default == JList([])) || (key == "run_state" && default == JText("in_flight"))
    || (key in {"context", "node_retries", "graph"} && default == JObject([]))
    || (key in {"node_outcomes", "engine_state"} && (default == JNull || default == JObject([])))
    || (key == "schema_version" && default == JInt(1))
  }

  lemma {:induction false} LookupSnoc(f: Assoc<string, Json>, key: string, value: Json, other: string)
    ensures Lookup(f + [(key, value)], other) == (if Lookup(f, other).Some? then Lookup(f, other) else if other == key then Some(value) else None)
  {
    if f == [] {
      assert f + [(key, value)] == [(key, value)] && [(key, value)][1..] == [];
    } else {
      assert (f + [(key, value)])[1..] == f[1..] + [(key, value)];
      LookupSnoc(f[1..], key, value, other);
    }
  }

  lemma GetOrSnoc(f: Assoc<string, Json>, key: string, value: Json, other: string, default: Json)
    requires Lookup(f, key) == None
    ensures GetOr(f + [(key, value)], other, default) == if other == key then value else GetOr(f, other, default)
  {
    LookupSnoc(f, key, value, other);
  }

  /** A missing field counts as its default, whatever else the file holds. */
  lemma AbsentIsDefault(f: Assoc<string, Json>, key: string, default: Json)
    requires Lookup(f, key) == None && CountsAs(key, default)
    ensures Load(JObject(f + [(key, default)])) == Load(JObject(f))
  {
    hide Lookup;
    hide GetOr;
    hide Listed;
    hide IntOf;
    hide GraphBlock;
    var h := f + [(key, default)];
    LookupSnoc(f, key, default, "current_node");
    GetOrSnoc(f, key, default, "completed_nodes", JList([]));
    GetOrSnoc(f, key, default, "graph", JObject([]));
    GetOrSnoc(f, key, default, "schema_version", JInt(1));
    GetOrSnoc(f, key, default, "context", JObject([]));
    GetOrSnoc(f, key, default, "node_retries", JObject([]));
    GetOrSnoc(f, key, default, "run_state", JText(IN_FLIGHT));
    GetOrSnoc(f, key, default, "node_outcomes", JNull);
    GetOrSnoc(f, key, default, "engine_state", JNull);
    DefaultsApply(f, key, default);
    hide OrEmpty;
    hide CountsAs;
  }

  /** Reading a missing key gives just what the default given for it would. */
  lemma DefaultsApply(f: Assoc<string, Json>, key: string, default: Json)
    requires Lookup(f, key) == None && CountsAs(key, default)
    ensures key != "current_node"
    ensures key == "completed_nodes" ==> GetOr(f, key, JList([])) == default
    ensures key in {"graph", "context", "node_retries"} ==> GetOr(f, key, JObject([])) == default
    ensures key == "schema_version" ==> GetOr(f, key, JInt(1)) == default
    ensures key == "run_state" ==> GetOr(f, key, JText(IN_FLIGHT)) == default
    ensures key in {"node_outcomes", "engine_state"} ==> OrEmpty(GetOr(f, key, JNull)) == OrEmpty(default)
  {
    hide Lookup;
    assert |"current_node"| == 12 && |"completed_nodes"| == 15 && |"context"| == 7 && |"node_retries"| == 12;
    assert |"schema_version"| == 14 && |"run_state"| == 9 && |"node_outcomes"| == 13 && |"engine_state"| == 12 && |"graph"| == 5;
    assert "current_node"[0] == 'c' && "node_retries"[0] == 'n' && "engine_state"[0] == 'e';
  }

  /** A file of the first schema, which has no version, is refused, and so is one without a current node. */
  lemma UnversionedIsRefused(f: Assoc<string, Json>, supplied: Option<string>, g: Graph)
    requires Lookup(f, "schema_version") == None || Lookup(f, "current_node") == None
    ensures var v := Ladder(Parsed(JObject(f)), supplied, g);
      v.Refused? && (Lookup(f, "current_node") == None ==> v.rung == Parses) && (v.rung == Parses || v.rung == Version)
  {
    hide Lookup;
    hide Listed;
    hide GraphBlock;
    hide VerifyStructure;
    hide StrField;
  }
}
