/**
 * The backend's thread transcripts and its reading of a child's verdict (backend.py): truncate-then-append,
 * replay, branch clones, outcome markers, and which texts count as an explicit verdict.
 */
module Transcripts {
  import opened Prelude
  import opened Outcomes

  // ---------------------------------------------------------------------------
  // Transcripts
  // ---------------------------------------------------------------------------

  datatype Exchange = Exchange(node: NodeId, instruction: string, output: string)

  type Transcript = seq<Exchange>

  ghost predicate DistinctNodes(t: Transcript) {
    forall i, j :: 0 <= i < j < |t| ==> t[i].node != t[j].node
  }

  /** Place of the first exchange of a node, or the length. */
  function FirstOf(t: Transcript, node: NodeId): (i: nat)
    ensures i <= |t| && (i < |t| ==> t[i].node == node) && forall j :: 0 <= j < i ==> t[j].node != node
  {
    if t == [] || t[0].node == node then 0 else 1 + FirstOf(t[1..], node)
  }

  /** Truncate from the node's earlier exchange, then append. */
  function Appended(t: Transcript, e: Exchange): Transcript {
    t[..FirstOf(t, e.node)] + [e]
  }

  function AppendedAll(t: Transcript, runs: seq<Exchange>): Transcript {
    if runs == [] then t else Appended(AppendedAll(t, runs[..|runs| - 1]), runs[|runs| - 1])
  }

  lemma AppendedDistinct(t: Transcript, e: Exchange)
    requires DistinctNodes(t)
    ensures DistinctNodes(Appended(t, e))
  {
  }

  /** The last run of a node in a history. */
  ghost predicate IsLastRun(runs: seq<Exchange>, e: Exchange) {
    exists i :: 0 <= i < |runs| && runs[i] == e && forall j :: i < j < |runs| ==> runs[j].node != e.node
  }

  /** However nodes are run and re-run, a thread holds each node once, with its most recent exchange, and ends with the latest. */
  lemma {:induction false} ThreadHoldsLatest(runs: seq<Exchange>)
    ensures var t := AppendedAll([], runs);
      && DistinctNodes(t) && (forall e :: e in t ==> IsLastRun(runs, e))
      && (runs != [] ==> t != [] && t[|t| - 1] == runs[|runs| - 1])
    decreases |runs|
  {
    if runs != [] {
      var n := |runs| - 1;
      var before, last := AppendedAll([], runs[..n]), runs[n];
      ThreadHoldsLatest(runs[..n]);
      AppendedDistinct(before, last);
      var t := AppendedAll([], runs);
      forall e | e in t ensures IsLastRun(runs, e) {
        if e == last {
          assert runs[n] == e;
        } else {
          var k :| 0 <= k < |t| && t[k] == e;
          assert before[k] == e && e in before;
          LastRunStays(runs, e);
        }
      }
    }
  }

  /** One more run, of another node, leaves a last run a last run. */
  lemma LastRunStays(runs: seq<Exchange>, e: Exchange)
    requires runs != [] && IsLastRun(runs[..|runs| - 1], e) && runs[|runs| - 1].node != e.node
    ensures IsLastRun(runs, e)
  {
    var n := |runs| - 1;
    var i :| 0 <= i < n && runs[..n][i] == e && forall j :: i < j < n ==> runs[..n][j].node != e.node;
    assert forall j :: i < j < n ==> runs[j] == runs[..n][j];
    assert runs[i] == e;
  }

  /** Re-running from position `i` keeps the first `i` exchanges and replaces the rest by the rerun. */
  lemma {:induction false} RerunReplacesTail(t: Transcript, i: nat, rerun: seq<Exchange>)
    requires i < |t| && DistinctNodes(t) && rerun != [] && rerun[0].node == t[i].node
    requires DistinctNodes(t[..i] + rerun)
    ensures AppendedAll(t, rerun) == t[..i] + rerun
    decreases |rerun|
  {
    hide FirstOf;
    var n := |rerun| - 1;
    var last := rerun[n];
    if n == 0 {
      assert AppendedAll(t, rerun[..0]) == t;
      assert FirstOf(t, last.node) == i;
      assert rerun == [last];
    } else {
      var before := t[..i] + rerun[..n];
      assert t[..i] + rerun == before + [last];
      NewNodeGoesLast(before, last);
      RerunReplacesTail(t, i, rerun[..n]);
      hide AppendedAll;
      assert AppendedAll(t, rerun) == Appended(before, last) by { AppendedLast(t, rerun); }
    }
  }

  lemma AppendedLast(t: Transcript, runs: seq<Exchange>)
    requires runs != []
    ensures AppendedAll(t, runs) == Appended(AppendedAll(t, runs[..|runs| - 1]), runs[|runs| - 1])
  {
  }

  lemma NewNodeGoesLast(before: Transcript, e: Exchange)
    requires DistinctNodes(before + [e])
    ensures Appended(before, e) == before + [e] && DistinctNodes(before)
  {
    var t := before + [e];
    forall j | 0 <= j < |before| ensures before[j].node != e.node { assert t[j] == before[j] && t[|before|] == e; }
    assert forall j :: 0 <= j < |before| ==> t[j] == before[j];
    assert FirstOf(before, e.node) == |before|;
  }

  // ---------------------------------------------------------------------------
  // Replay
  // ---------------------------------------------------------------------------

  datatype Line = User(text: string) | Assistant(text: string)

  function Replay(t: Transcript): (r: seq<Line>)
    ensures |r| == 2 * |t|
    ensures forall i :: 0 <= i < |t| ==> r[2 * i] == User(t[i].instruction) && r[2 * i + 1] == Assistant(t[i].output)
  {
    if t == [] then []
    else
      var n := |t| - 1;
      Replay(t[..n]) + [User(t[n].instruction), Assistant(t[n].output)]
  }

  // ---------------------------------------------------------------------------
  // Outcome markers
  // ---------------------------------------------------------------------------

  /** What a marker tells of an outcome. */
  datatype Told = Told(status: StageStatus, isExplicit: bool, preferredLabel: Option<string>, notes: Option<string>)

  function Debrace(s: string): (r: string)
    ensures |r| == |s| && '{' !in r && '}' !in r
    ensures forall i :: 0 <= i < |s| && s[i] != '{' && s[i] != '}' ==> r[i] == s[i]
  {
    if s == "" then ""
    else [if s[0] == '{' then '(' else if s[0] == '}' then ')' else s[0]] + Debrace(s[1..])
  }

  function Marker(o: Told): string {
    "[" + (if o.isExplicit then "report_outcome" else "spawn-completion") + ": status=" + StatusText(o.status) +
    LabelPart(o) + NotesPart(o) + "]"
  }

  predicate BraceFree(s: string) {
    '{' !in s && '}' !in s
  }

  lemma JoinIsBraceFree(a: string, b: string)
    requires BraceFree(a) && BraceFree(b)
    ensures BraceFree(a + b)
  {
  }

  function LabelPart(o: Told): string {
    if Truthy(o.preferredLabel) then " preferred_label=" + Debrace(o.preferredLabel.value) else ""
  }

  function NotesPart(o: Told): string {
    if Truthy(o.notes) then " notes=\"" + Debrace(o.notes.value) + "\"" else ""
  }

  lemma PartsAreBraceFree(o: Told)
    ensures BraceFree(LabelPart(o)) && BraceFree(NotesPart(o)) && BraceFree(StatusText(o.status))
  {
    StatusIsBraceFree(o.status);
    hide StatusText;
    assert BraceFree(" preferred_label=") && BraceFree(" notes=\"") && BraceFree("\"");
    if Truthy(o.preferredLabel) { JoinIsBraceFree(" preferred_label=", Debrace(o.preferredLabel.value)); }
    if Truthy(o.notes) {
      JoinIsBraceFree(" notes=\"", Debrace(o.notes.value));
      JoinIsBraceFree(" notes=\"" + Debrace(o.notes.value), "\"");
    }
  }

  lemma StatusIsBraceFree(s: StageStatus)
    ensures BraceFree(StatusText(s))
  {
    assert BraceFree("success") && BraceFree("partial_success") && BraceFree("retry");
    assert BraceFree("fail") && BraceFree("skipped");
  }

  /** A marker never looks like JSON, and is never blank. */
  lemma MarkerIsBraceFree(o: Told)
    ensures BraceFree(Marker(o)) && Strip(Marker(o)) != ""
  {
    var prefix := if o.isExplicit then "report_outcome" else "spawn-completion";
    assert BraceFree(prefix) && BraceFree("[") && BraceFree("]") && BraceFree(": status=");
    PartsAreBraceFree(o);
    hide LabelPart;
    hide NotesPart;
    hide StatusText;
    var m := "[" + prefix + ": status=" + StatusText(o.status) + LabelPart(o) + NotesPart(o) + "]";
    assert m == Marker(o);
    assert BraceFree(m) by {
      JoinIsBraceFree("[", prefix);
      JoinIsBraceFree("[" + prefix, ": status=");
      JoinIsBraceFree("[" + prefix + ": status=", StatusText(o.status));
      JoinIsBraceFree("[" + prefix + ": status=" + StatusText(o.status), LabelPart(o));
      JoinIsBraceFree("[" + prefix + ": status=" + StatusText(o.status) + LabelPart(o), NotesPart(o));
      JoinIsBraceFree("[" + prefix + ": status=" + StatusText(o.status) + LabelPart(o) + NotesPart(o), "]");
    }
    hide BraceFree;
    hide Marker;
    assert m[0] == '[' && m[|m| - 1] == ']';
    NotBlank(m);
  }

  /** What a marker tells: whether the outcome was asserted, its status, and a label or notes without braces word for word. */
  lemma MarkerTells(o: Told)
    ensures var head := (if o.isExplicit then "[report_outcome" else "[spawn-completion") + ": status=" + StatusText(o.status);
      var tag := if Truthy(o.preferredLabel) then " preferred_label=" + o.preferredLabel.value else "";
      var notes := if Truthy(o.notes) then " notes=\"" + o.notes.value + "\"" else "";
      BraceFree(tag) && BraceFree(notes) ==> Marker(o) == head + tag + notes + "]"
  {
    hide StatusText;
    if Truthy(o.preferredLabel) && BraceFree(" preferred_label=" + o.preferredLabel.value) { DebraceKeeps(" preferred_label=", o.preferredLabel.value, ""); }
    if Truthy(o.notes) && BraceFree(" notes=\"" + o.notes.value + "\"") { DebraceKeeps(" notes=\"", o.notes.value, "\""); }
    hide BraceFree;
    hide Debrace;
    var head := (if o.isExplicit then "[report_outcome" else "[spawn-completion") + ": status=" + StatusText(o.status);
    assert "[" + "report_outcome" == "[report_outcome" && "[" + "spawn-completion" == "[spawn-completion";
    assert "[" + (if o.isExplicit then "report_outcome" else "spawn-completion") + ": status=" + StatusText(o.status) == head;
  }

  lemma DebraceKeeps(a: string, s: string, b: string)
    requires BraceFree(a + s + b)
    ensures Debrace(s) == s
  {
    var t := a + s + b;
    forall i | 0 <= i < |s| ensures s[i] != '{' && s[i] != '}' { assert t[|a| + i] == s[i]; }
    assert forall i :: 0 <= i < |s| ==> Debrace(s)[i] == s[i];
  }

  lemma NotBlank(s: string)
    requires s != "" && !IsSpace(s[0]) && !IsSpace(s[|s| - 1])
    ensures Strip(s) == s
  {
  }

  // ---------------------------------------------------------------------------
  // Reading a verdict
  // ---------------------------------------------------------------------------

  /** What a text means as JSON: a verdict object with a known status, or nothing of use. */
  type Decoder = string -> Option<StageStatus>

  datatype Reading = Reading(status: StageStatus, isExplicit: bool) {
    predicate IsCompletion() {
      status.Success? || status.PartialSuccess?
    }
  }

  /** The text inside a Markdown code fence around all of it. */
  function Unfenced(s: string): string {
    var body := FenceBody(s);
    if |s| >= 6 && s[..3] == "```" && |body| >= 3 && body[|body| - 3..] == "```" then Strip(body[..|body| - 3]) else s
  }

  /** What follows an opening fence and its language mark. */
  function FenceBody(s: string): (r: string)
    ensures |r| <= |s| && r == s[|s| - |r|..]
  {
    if |s| >= 7 && s[3..7] == "json" then s[7..] else if |s| >= 3 then s[3..] else ""
  }

  /** Place of the last occurrence, or nothing. */
  function LastIndex(s: string, c: char): (r: Option<nat>)
    ensures r.Some? ==> r.value < |s| && s[r.value] == c && c !in s[r.value + 1..]
    ensures r.None? <==> c !in s
  {
    if s == "" then None
    else if s[|s| - 1] == c then Some(|s| - 1)
    else
      assert s == s[..|s| - 1] + [s[|s| - 1]];
      var r := LastIndex(s[..|s| - 1], c);
      assert r.Some? ==> s[r.value + 1..] == s[..|s| - 1][r.value + 1..] + [s[|s| - 1]];
      r
  }

  /** The piece from the last `{` to the brace that balances it. */
  function LastObject(s: string): Option<string> {
    var open := LastIndex(s, '{');
    if open.None? then None
    else
      var close := Balance(s, open.value, 0);
      if close.None? then None else Some(s[open.value..close.value + 1])
  }

  function Balance(s: string, i: nat, depth: int): (r: Option<nat>)
    requires i <= |s|
    ensures r.Some? ==> i <= r.value < |s| && s[r.value] == '}'
    decreases |s| - i
  {
    if i == |s| then None
    else if s[i] == '{' then Balance(s, i + 1, depth + 1)
    else if s[i] == '}' && depth == 1 then Some(i)
    else if s[i] == '}' then Balance(s, i + 1, depth - 1)
    else Balance(s, i + 1, depth)
  }

  /** `_parse_outcome`. */
  function ParseOutcome(output: string, goalGate: bool, decode: Decoder): Reading {
    var stripped := Strip(output);
    if stripped == "" then Reading(Fail, false)
    else
      var text := Unfenced(stripped);
      var whole := if text != "" && text[0] == '{' then decode(text) else None;
      if whole.Some? then Reading(whole.value, true)
      else
        var candidate := LastObject(text);
        var embedded := if candidate.Some? then decode(candidate.value) else None;
        if embedded.Some? then Reading(embedded.value, true)
        else Reading(if goalGate then Retry else Success, false)
  }

  // ---------------------------------------------------------------------------
  // What an explicit verdict quotes
  // ---------------------------------------------------------------------------

  ghost predicate PartOf(piece: string, text: string) {
    exists i, j :: 0 <= i <= j <= |text| && text[i..j] == piece
  }

  lemma PartOfPart(a: string, b: string, c: string)
    requires PartOf(a, b) && PartOf(b, c)
    ensures PartOf(a, c)
  {
    var i, j :| 0 <= i <= j <= |b| && b[i..j] == a;
    var k, l :| 0 <= k <= l <= |c| && c[k..l] == b;
    var x := c[k + i..k + j];
    assert |x| == |a| && forall n :: 0 <= n < |x| ==> x[n] == b[i + n] == a[n];
    assert x == a;
  }

  lemma StripIsPart(s: string)
    ensures PartOf(Strip(s), s)
  {
    var l := LStrip(s);
    var r := RStrip(l);
    assert s[|s| - |l|..|s|] == l && l[0..|r|] == r;
    PartOfPart(r, l, s);
  }

  lemma MiddleIsPart(s: string, body: string, k: nat)
    requires k <= |body| <= |s| && body == s[|s| - |body|..]
    ensures PartOf(body[..|body| - k], s)
  {
    assert s[|s| - |body|..|s| - k] == body[..|body| - k];
  }

  lemma UnfencedIsPart(s: string)
    ensures PartOf(Unfenced(s), s)
  {
    hide PartOf;
    hide Strip;
    hide FenceBody;
    var body := FenceBody(s);
    if Unfenced(s) == s {
      MiddleIsPart(s, s, 0);
      assert s[..|s| - 0] == s;
    } else {
      var inner := body[..|body| - 3];
      MiddleIsPart(s, body, 3);
      StripIsPart(inner);
      PartOfPart(Strip(inner), inner, s);
    }
  }

  lemma LastObjectIsPart(s: string)
    requires LastObject(s).Some?
    ensures var o := LastObject(s).value; PartOf(o, s) && o != "" && o[0] == '{'
  {
    var open := LastIndex(s, '{').value;
    var close := Balance(s, open, 0).value;
    assert s[open] == '{' && s[open..close + 1][0] == '{';
  }

  /** An explicit reading quotes the output: some part of it is an object that decodes to exactly that status. A gate never passes without one. */
  lemma ExplicitIsQuoted(output: string, goalGate: bool, decode: Decoder)
    ensures var r := ParseOutcome(output, goalGate, decode);
      && (r.isExplicit ==>
            exists piece :: PartOf(piece, output) && piece != "" && piece[0] == '{' && decode(piece) == Some(r.status))
      && (!r.isExplicit && goalGate ==> r.status.Retry? || r.status.Fail?)
  {
    hide PartOf;
    hide Strip;
    hide Unfenced;
    hide LastObject;
    var stripped := Strip(output);
    var text := Unfenced(stripped);
    StripIsPart(output);
    UnfencedIsPart(stripped);
    PartOfPart(text, stripped, output);
    if LastObject(text).Some? {
      LastObjectIsPart(text);
      PartOfPart(LastObject(text).value, text, output);
    }
  }

  lemma LeadingNewline(x: string)
    requires x != "" && !IsSpace(x[0])
    ensures LStrip("\n" + x) == x
  {
    var s := "\n" + x;
    assert IsSpace('\n') && s[0] == '\n' && s[1..] == x;
    assert LStrip(s) == LStrip(x);
  }

  lemma TrailingNewline(x: string)
    requires x != "" && !IsSpace(x[|x| - 1])
    ensures RStrip(x + "\n") == x
  {
    var s := x + "\n";
    assert IsSpace('\n') && s[|s| - 1] == '\n' && s[..|s| - 1] == x;
    assert RStrip(s) == RStrip(x);
  }

  lemma StripNewlines(x: string)
    requires x != "" && !IsSpace(x[0]) && !IsSpace(x[|x| - 1])
    ensures Strip("\n" + x + "\n") == x
  {
    hide LStrip;
    hide RStrip;
    hide IsSpace;
    var y := x + "\n";
    assert "\n" + x + "\n" == "\n" + y && y[0] == x[0];
    LeadingNewline(y);
    TrailingNewline(x);
  }

  function Fenced(text: string): string {
    "```json" + ("\n" + text + "\n" + "```")
  }

  lemma UnfencedOf(s: string, inner: string)
    requires s == "```json" + (inner + "```")
    ensures Unfenced(s) == Strip(inner)
  {
    hide Strip;
    var body := inner + "```";
    assert s[3..7] == "json" && s[7..] == body && s[..3] == "```";
    assert body[|body| - 3..] == "```" && body[..|body| - 3] == inner;
  }

  lemma FenceOpens(whole: string)
    requires IsObject(whole)
    ensures Strip(Fenced(whole)) == Fenced(whole) && Unfenced(Fenced(whole)) == whole
  {
    hide Strip;
    hide Unfenced;
    var inner := "\n" + whole + "\n";
    FenceShape(whole);
    NotBlank(Fenced(whole));
    UnfencedOf(Fenced(whole), inner);
    StripNewlines(whole);
  }

  lemma FenceShape(whole: string)
    ensures var f := Fenced(whole);
      f == "```json" + (("\n" + whole + "\n") + "```") && f != "" && !IsSpace(f[0]) && !IsSpace(f[|f| - 1])
  {
    var f := Fenced(whole);
    assert f[0] == '`' && f[|f| - 1] == '`';
  }

  lemma BareOpens(whole: string)
    requires IsObject(whole)
    ensures Strip(whole) == whole && Unfenced(whole) == whole
  {
    NotBlank(whole);
    hide Strip;
    assert |whole| >= 3 ==> whole[..3][0] != "```"[0];
  }

  /** A verdict that stands alone is read, bare or in a code fence. */
  lemma LoneVerdictIsRead(whole: string, status: StageStatus, goalGate: bool, decode: Decoder)
    requires IsObject(whole) && decode(whole) == Some(status)
    ensures ParseOutcome(whole, goalGate, decode) == Reading(status, true)
    ensures ParseOutcome(Fenced(whole), goalGate, decode) == Reading(status, true)
  {
    hide Strip;
    hide Unfenced;
    hide LastObject;
    BareOpens(whole);
    FenceOpens(whole);
    assert Fenced(whole) != "";
    hide Fenced;
  }

  lemma {:induction false} StripMembers(s: string, c: char)
    requires c !in s
    ensures c !in Strip(s)
  {
    var l := LStrip(s);
    assert c !in l;
    assert forall x :: x in RStrip(l) ==> x in l;
  }

  /** A text without braces, a marker quoted in prose included, is never an explicit verdict. */
  lemma BraceFreeIsNeverExplicit(output: string, goalGate: bool, decode: Decoder)
    requires '{' !in output
    ensures !ParseOutcome(output, goalGate, decode).isExplicit
  {
    StripMembers(output, '{');
    var s := Strip(output);
    hide Strip;
    UnfencedMembers(s, '{');
  }

  lemma UnfencedMembers(s: string, c: char)
    requires c !in s
    ensures c !in Unfenced(s)
  {
    var body := if |s| >= 7 && s[3..7] == "json" then s[7..] else if |s| >= 3 then s[3..] else "";
    assert c !in body;
    if |body| >= 3 {
      assert c !in body[..|body| - 3];
      StripMembers(body[..|body| - 3], c);
    }
    hide Strip;
  }

  lemma MarkerIsNeverExplicit(o: Told, before: string, after: string, goalGate: bool, decode: Decoder)
    requires '{' !in before && '{' !in after
    ensures !ParseOutcome(before + Marker(o) + after, goalGate, decode).isExplicit
  {
    MarkerIsBraceFree(o);
    hide Marker;
    BraceFreeIsNeverExplicit(before + Marker(o) + after, goalGate, decode);
  }

  // ---------------------------------------------------------------------------
  // Verdicts embedded in prose
  // ---------------------------------------------------------------------------

  lemma {:induction false} BalanceFlat(s: string, i: nat, close: nat)
    requires i <= close < |s| && s[close] == '}' && forall j :: i <= j < close ==> s[j] != '{' && s[j] != '}'
    ensures Balance(s, i, 1) == Some(close)
    decreases close - i
  {
    if i < close { BalanceFlat(s, i + 1, close); }
  }

  lemma {:induction false} LastIndexAt(s: string, c: char, i: nat)
    requires i < |s| && s[i] == c && forall j :: i < j < |s| ==> s[j] != c
    ensures LastIndex(s, c) == Some(i)
  {
    if i + 1 < |s| { LastIndexAt(s[..|s| - 1], c, i); }
  }

  predicate IsObject(whole: string) {
    |whole| >= 2 && whole[0] == '{' && whole[|whole| - 1] == '}'
  }

  /** Place of the first occurrence from `i` on, or nothing. */
  function Find(s: string, c: char, i: nat): (r: Option<nat>)
    requires i <= |s|
    ensures r.Some? ==> i <= r.value < |s| && s[r.value] == c && forall k :: i <= k < r.value ==> s[k] != c
    ensures r.None? ==> forall k :: i <= k < |s| ==> s[k] != c
    decreases |s| - i
  {
    if i == |s| then None else if s[i] == c then Some(i) else Find(s, c, i + 1)
  }

  /** The piece from the last `{` of a text to the first `}` after it, should there be one. */
  function LastPiece(s: string): Option<string> {
    var open := LastIndex(s, '{');
    if open.None? then None
    else
      var close := Find(s, '}', open.value);
      if close.None? then None else Some(s[open.value..close.value + 1])
  }

  /** That piece lies from `i` to `j`. */
  predicate PieceAt(s: string, i: int, j: int) {
    && 0 <= i < j < |s| && s[i] == '{' && s[j] == '}'
    && (forall k :: i < k < |s| ==> s[k] != '{') && (forall k :: i < k < j ==> s[k] != '}')
  }

  lemma PieceIs(s: string, i: nat, j: nat)
    requires PieceAt(s, i, j)
    ensures LastPiece(s) == Some(s[i..j + 1])
  {
    LastIndexAt(s, '{', i);
    hide LastIndex;
    hide Find;
    var close := Find(s, '}', i);
    assert close.Some? && close.value == j;
  }

  /** A text whose last `{` is never closed has no such piece. */
  lemma UnclosedHasNone(s: string, i: nat)
    requires i < |s| && s[i] == '{' && forall k :: i < k < |s| ==> s[k] != '{' && s[k] != '}'
    ensures LastPiece(s) == None
  {
    LastIndexAt(s, '{', i);
    hide LastIndex;
    hide Find;
  }

  /** Where the braces stand: an unclosed last `{`, or a last piece. */
  lemma LastBraces(s: string) returns (i: nat, j: nat)
    requires '{' in s
    ensures i < |s| && s[i] == '{' && forall k :: i < k < |s| ==> s[k] != '{'
    ensures if j < |s| then PieceAt(s, i, j) else forall k :: i < k < |s| ==> s[k] != '}'
  {
    i := LastIndex(s, '{').value;
    assert '{' !in s[i + 1..];
    hide LastIndex;
    forall k | i < k < |s| ensures s[k] != '{' { assert s[k] == s[i + 1..][k - i - 1]; }
    var close := Find(s, '}', i);
    hide Find;
    j := if close.Some? then close.value else |s|;
  }

  lemma {:induction false} BalanceUnclosed(s: string, i: nat, depth: int)
    requires i <= |s| && forall k :: i <= k < |s| ==> s[k] != '{' && s[k] != '}'
    ensures Balance(s, i, depth) == None
    decreases |s| - i
  {
    if i < |s| { BalanceUnclosed(s, i + 1, depth); }
  }

  /** The scan for a balancing brace, started at the last `{`, never meets another: it finds the first `}`. */
  lemma RecoveryTakesLastPiece(s: string)
    ensures LastObject(s) == LastPiece(s)
  {
    if '{' in s {
      var i, j := LastBraces(s);
      LastIndexAt(s, '{', i);
      hide LastIndex;
      assert Balance(s, i, 0) == Balance(s, i + 1, 1);
      if j < |s| {
        BalanceFlat(s, i + 1, j);
        PieceIs(s, i, j);
      } else {
        BalanceUnclosed(s, i + 1, 1);
        UnclosedHasNone(s, i);
      }
      hide Balance;
      hide LastPiece;
    }
  }

  /** The verdict that the last piece of a text states, if any. */
  function Spoken(text: string, decode: Decoder): Option<StageStatus> {
    var piece := LastPiece(text);
    if piece.Some? then decode(piece.value) else None
  }

  /** The text is no verdict all by itself. */
  predicate Mixed(text: string, decode: Decoder) {
    text == "" || text[0] != '{' || decode(text).None?
  }

  /**
   * Every text that is not a verdict all by itself is read by its last piece alone, from its last `{` to the first
   * `}` after it: an explicit verdict if and only if that piece decodes, and then its status.
   */
  lemma EmbeddedVerdictExactly(output: string, goalGate: bool, decode: Decoder)
    requires Strip(output) != "" && Mixed(Unfenced(Strip(output)), decode)
    ensures var r := ParseOutcome(output, goalGate, decode);
      var spoken := Spoken(Unfenced(Strip(output)), decode);
      && (forall status :: r == Reading(status, true) <==> spoken == Some(status))
      && (spoken.None? ==> r == Reading(if goalGate then Retry else Success, false))
  {
    hide Strip;
    hide Unfenced;
    hide LastObject;
    hide LastPiece;
    RecoveryTakesLastPiece(Unfenced(Strip(output)));
  }

  // ---------------------------------------------------------------------------
  // Verdicts wrapped in prose
  // ---------------------------------------------------------------------------

  /** What stands between the last `{` of an object and the first `}` after it: where nothing is nested, the object itself. */
  function LastInner(whole: string): (r: string)
    requires IsObject(whole)
    ensures LastPiece(whole) == Some(r)
    ensures BraceFree(whole[1..|whole| - 1]) ==> r == whole
  {
    ObjectHasPiece(whole);
    LastPiece(whole).value
  }

  lemma ObjectHasPiece(whole: string)
    requires IsObject(whole)
    ensures LastPiece(whole).Some?
    ensures BraceFree(whole[1..|whole| - 1]) ==> LastPiece(whole) == Some(whole)
  {
    var n := |whole| - 1;
    var i, j := LastBraces(whole);
    PieceIs(whole, i, j);
    hide LastPiece;
    if BraceFree(whole[1..n]) {
      assert forall k :: 1 <= k < n ==> whole[k] == whole[1..n][k - 1];
      assert i == 0 && j == n && whole[0..n + 1] == whole;
    }
  }

  /** What stands before has no say once a `{` follows. */
  lemma PieceOfSuffix(a: string, b: string)
    requires '{' in b
    ensures LastPiece(a + b) == LastPiece(b)
  {
    var i, j := LastBraces(b);
    var s := a + b;
    assert forall k :: |a| <= k < |s| ==> s[k] == b[k - |a|];
    hide LastPiece;
    if j < |b| {
      PieceIs(b, i, j);
      PieceIs(s, |a| + i, |a| + j);
      assert s[|a| + i..|a| + j + 1] == b[i..j + 1];
    } else {
      UnclosedHasNone(b, i);
      UnclosedHasNone(s, |a| + i);
    }
  }

  lemma PieceOfPrefix(whole: string, after: string)
    requires IsObject(whole) && '{' !in after
    ensures LastPiece(whole + after) == Some(LastInner(whole))
  {
    var i, j := LastBraces(whole);
    var s := whole + after;
    hide LastPiece;
    hide LastInner;
    PieceIs(whole, i, j);
    assert forall k :: |whole| <= k < |s| ==> s[k] == after[k - |whole|];
    assert forall k :: 0 <= k < |whole| ==> s[k] == whole[k];
    PieceIs(s, i, j);
    assert s[i..j + 1] == whole[i..j + 1];
  }

  /** Whose piece counts in a wrapped object: that of the prose after it if a `{` occurs there, else the object's last inner one. */
  lemma WrappedPiece(before: string, whole: string, after: string)
    requires IsObject(whole)
    ensures LastPiece(before + whole + after) == if '{' in after then LastPiece(after) else Some(LastInner(whole))
  {
    hide LastPiece;
    hide LastInner;
    if '{' in after {
      PieceOfSuffix(before + whole, after);
    } else {
      assert before + whole + after == before + (whole + after) && (whole + after)[0] == '{';
      PieceOfSuffix(before, whole + after);
      PieceOfPrefix(whole, after);
    }
  }

  /**
   * A verdict wrapped in prose is honoured if and only if the piece that counts decodes to the same status: without a
   * later `{`, the last object nested in the verdict, itself where nothing is nested; with one, what follows it.
   * Against the program's own promise that an explicit failure is never coerced to success, every other way occurs.
   */
  lemma WrappedVerdictExactly(output: string, before: string, whole: string, after: string, status: StageStatus,
                              goalGate: bool, decode: Decoder)
    requires Strip(output) != "" && Unfenced(Strip(output)) == before + whole + after
    requires Mixed(before + whole + after, decode) && IsObject(whole) && decode(whole) == Some(status)
    ensures var r := ParseOutcome(output, goalGate, decode);
      var spoken := if '{' in after then Spoken(after, decode) else decode(LastInner(whole));
      && (r == Reading(status, true) <==> spoken == Some(status))
      && (spoken.Some? ==> r == Reading(spoken.value, true))
      && (spoken.None? ==> r == Reading(if goalGate then Retry else Success, false))
  {
    hide Strip;
    hide Unfenced;
    hide ParseOutcome;
    hide LastPiece;
    hide LastInner;
    hide Mixed;
    WrappedPiece(before, whole, after);
    EmbeddedVerdictExactly(output, goalGate, decode);
  }

  /** Where nothing is nested in it and no `{` follows it, a wrapped verdict is honoured. */
  lemma FlatVerdictIsHonoured(output: string, before: string, whole: string, after: string, status: StageStatus,
                              goalGate: bool, decode: Decoder)
    requires Strip(output) != "" && Unfenced(Strip(output)) == before + whole + after
    requires IsObject(whole) && BraceFree(whole[1..|whole| - 1]) && decode(whole) == Some(status)
    requires '{' !in after
    requires Mixed(before + whole + after, decode)
    ensures ParseOutcome(output, goalGate, decode) == Reading(status, true)
  {
    hide Strip;
    hide Unfenced;
    hide ParseOutcome;
    hide Mixed;
    WrappedVerdictExactly(output, before, whole, after, status, goalGate, decode);
  }

  /** However flat, a verdict followed by a `{` has no say: what follows decides alone. */
  lemma LaterBraceDecides(output: string, before: string, whole: string, after: string, status: StageStatus,
                          goalGate: bool, decode: Decoder)
    requires Strip(output) != "" && Unfenced(Strip(output)) == before + whole + after
    requires Mixed(before + whole + after, decode) && IsObject(whole) && decode(whole) == Some(status) && '{' in after
    ensures Spoken(after, decode).None? ==>
      ParseOutcome(output, goalGate, decode) == Reading(if goalGate then Retry else Success, false)
    ensures Spoken(after, decode).Some? ==>
      ParseOutcome(output, goalGate, decode) == Reading(Spoken(after, decode).value, true)
  {
    hide Strip;
    hide Unfenced;
    hide ParseOutcome;
    hide Mixed;
    hide Spoken;
    WrappedVerdictExactly(output, before, whole, after, status, goalGate, decode);
  }

  const Inner := "{\"a\":\"b\"}"
  const InnerVerdict := "{\"status\":\"success\"}"
  const FlatFail := "{\"status\":\"fail\"}"
  const FailWithUpdates := "{\"status\":\"fail\",\"context_updates\":" + Inner + "}"
  const FailWithChecks := "{\"status\":\"fail\",\"checks\":" + InnerVerdict + "}"

  /** What these texts mean as JSON. */
  const Json: Decoder := (t: string) =>
    if t == FailWithUpdates || t == FailWithChecks || t == FlatFail then Some(Fail)
    else if t == InnerVerdict then Some(Success)
    else None

  lemma InnerOfNested(head: string, body: string)
    requires head != "" && head[0] == '{' && BraceFree(body)
    ensures var whole := head + ("{" + body + "}") + "}";
      IsObject(whole) && LastInner(whole) == "{" + body + "}"
  {
    var whole := head + ("{" + body + "}") + "}";
    var i := |head|;
    assert whole[i] == '{' && whole[i + 1 + |body|] == '}' && whole[|whole| - 1] == '}';
    assert forall j :: i < j < i + 1 + |body| ==> whole[j] == body[j - i - 1];
    hide LastPiece;
    PieceIs(whole, i, i + 1 + |body|);
    assert whole[i..i + 2 + |body|] == "{" + body + "}";
  }

  /** A text that begins with this word and ends in a brace is stripped, unfenced and mixed. */
  lemma ProseReads(rest: string, decode: Decoder)
    requires rest != "" && rest[|rest| - 1] == '}'
    ensures var output := "Verdict: " + rest;
      Strip(output) == output && Unfenced(output) == output && output != "" && Mixed(output, decode)
  {
    var output := "Verdict: " + rest;
    assert output[0] == 'V' && output[|output| - 1] == '}';
    NotBlank(output);
    hide Strip;
    assert output[..3][0] != "```"[0];
  }

  /** The last innermost objects of the two texts. */
  lemma UpdatesNested()
    ensures IsObject(FailWithUpdates) && LastInner(FailWithUpdates) == Inner
  {
    var body := "\"a\":\"b\"";
    assert Inner == "{" + body + "}" && BraceFree(body);
    hide LastInner;
    hide IsObject;
    InnerOfNested("{\"status\":\"fail\",\"context_updates\":", body);
  }

  lemma ChecksNested()
    ensures IsObject(FailWithChecks) && LastInner(FailWithChecks) == InnerVerdict
  {
    var body := "\"status\":\"success\"";
    assert InnerVerdict == "{" + body + "}" && BraceFree(body);
    hide LastInner;
    hide IsObject;
    InnerOfNested("{\"status\":\"fail\",\"checks\":", body);
  }

  /** What all of them decode to. */
  lemma NestedMeanings()
    ensures Json(FailWithUpdates) == Some(Fail) && Json(FailWithChecks) == Some(Fail)
    ensures Json(Inner) == None && Json(InnerVerdict) == Some(Success)
  {
    assert |Inner| == 9 && |InnerVerdict| == 20 && |FlatFail| == 17 && |FailWithUpdates| > 20 && |FailWithChecks| > 20;
    hide Inner;
    hide InnerVerdict;
    hide FlatFail;
    hide FailWithUpdates;
    hide FailWithChecks;
  }

  /** How an object with a nested one reads after a word of prose. */
  lemma ProseVerdict(whole: string, status: StageStatus, goalGate: bool, decode: Decoder)
    requires IsObject(whole) && decode(whole) == Some(status)
    ensures var r := ParseOutcome("Verdict: " + whole, goalGate, decode);
      var inner := decode(LastInner(whole));
      && (inner.Some? ==> r == Reading(inner.value, true))
      && (inner.None? ==> r == Reading(if goalGate then Retry else Success, false))
  {
    hide ParseOutcome;
    hide Strip;
    hide Unfenced;
    hide LastInner;
    hide Mixed;
    ProseReads(whole, decode);
    var output := "Verdict: " + whole;
    assert output == "Verdict: " + whole + "";
    WrappedVerdictExactly(output, "Verdict: ", whole, "", status, goalGate, decode);
  }

  /** A failing verdict with context updates, after a word of prose: a plain success, or a retry where a gate asks. */
  lemma FailureIsLost()
    ensures Json(FailWithUpdates) == Some(Fail)
    ensures ParseOutcome("Verdict: " + FailWithUpdates, false, Json) == Reading(Success, false)
    ensures ParseOutcome("Verdict: " + FailWithUpdates, true, Json) == Reading(Retry, false)
  {
    hide ParseOutcome;
    UpdatesNested();
    NestedMeanings();
    hide LastInner;
    hide Json;
    hide FailWithUpdates;
    ProseVerdict(FailWithUpdates, Fail, false, Json);
    ProseVerdict(FailWithUpdates, Fail, true, Json);
  }

  /** A failing verdict that reports a successful check: an explicit success, which satisfies a goal gate. */
  lemma FailureSatisfiesGate(goalGate: bool)
    ensures Json(FailWithChecks) == Some(Fail)
    ensures ParseOutcome("Verdict: " + FailWithChecks, goalGate, Json) == Reading(Success, true)
  {
    hide ParseOutcome;
    ChecksNested();
    NestedMeanings();
    hide LastInner;
    hide Json;
    hide FailWithChecks;
    ProseVerdict(FailWithChecks, Fail, goalGate, Json);
  }

  const Remark := " see {x}"

  lemma FlatIsFlat()
    ensures IsObject(FlatFail) && BraceFree(FlatFail[1..|FlatFail| - 1])
  {
    assert FlatFail[1..|FlatFail| - 1] == "\"status\":\"fail\"";
  }

  lemma FlatMeanings()
    ensures Json(FlatFail) == Some(Fail) && Json("{x}") == None
  {
    assert |"{x}"| == 3 && |InnerVerdict| == 20 && |FlatFail| == 17 && |FailWithUpdates| > 20 && |FailWithChecks| > 20;
    hide InnerVerdict;
    hide FlatFail;
    hide FailWithUpdates;
    hide FailWithChecks;
  }

  lemma RemarkPiece()
    ensures '{' in Remark && Remark[|Remark| - 1] == '}' && LastPiece(Remark) == Some("{x}")
  {
    hide LastPiece;
    assert Remark[5] == '{' && Remark[5..8] == "{x}";
    PieceIs(Remark, 5, 7);
  }

  lemma FlatTexts()
    ensures IsObject(FlatFail) && BraceFree(FlatFail[1..|FlatFail| - 1]) && Json(FlatFail) == Some(Fail)
    ensures '{' in Remark && Remark[|Remark| - 1] == '}' && Spoken(Remark, Json) == None
  {
    hide LastPiece;
    hide Json;
    hide Remark;
    hide FlatFail;
    hide IsObject;
    FlatIsFlat();
    FlatMeanings();
    RemarkPiece();
  }

  /** A failing verdict with nothing nested, before a remark with a brace in it: a plain success, or a retry at a gate. */
  lemma FailureIsTalkedOver(goalGate: bool)
    ensures Json(FlatFail) == Some(Fail)
    ensures ParseOutcome("Verdict: " + (FlatFail + Remark), goalGate, Json) == Reading(if goalGate then Retry else Success, false)
  {
    hide ParseOutcome;
    hide Strip;
    hide Unfenced;
    hide Mixed;
    hide Spoken;
    FlatTexts();
    hide Json;
    hide FlatFail;
    hide Remark;
    var rest := FlatFail + Remark;
    var output := "Verdict: " + rest;
    assert rest[|rest| - 1] == '}';
    ProseReads(rest, Json);
    assert output == "Verdict: " + FlatFail + Remark;
    LaterBraceDecides(output, "Verdict: ", FlatFail, Remark, Fail, goalGate, Json);
  }

  // ---------------------------------------------------------------------------
  // The backend object
  // ---------------------------------------------------------------------------

  /** What a child session left: its final text, and its orchestrator's completion status. */
  datatype SpawnResult = SpawnResult(output: string, completion: Option<string>)

  /** A clean completion vouches for a finished child, never for a verdict. */
  function FromSpawn(r: SpawnResult): (o: Option<Reading>)
    ensures o.Some? ==> !o.value.isExplicit && o.value.IsCompletion() && r.completion == Some(StatusText(o.value.status))
    ensures o.None? ==> r.completion.None? || r.completion.value !in {"success", "partial_success"}
  {
    if r.completion == Some("success") then Some(Reading(Success, false))
    else if r.completion == Some("partial_success") then Some(Reading(PartialSuccess, false))
    else None
  }

  const EmptyFinal := "Child session completed with empty final message"

  class Backend {
    var transcripts: map<string, Transcript>

    constructor ()
      ensures transcripts == map[]
    {
      transcripts := map[];
    }

    ghost predicate Valid()
      reads this
    {
      forall key :: key in transcripts ==>
        DistinctNodes(transcripts[key]) && forall e :: e in transcripts[key] ==> Strip(e.output) != ""
    }

    function Thread(key: string): Transcript
      reads this
    {
      if key in transcripts then transcripts[key] else []
    }

    /** `_append_to_transcript`. */
    method Append(key: string, e: Exchange)
      requires Valid() && Strip(e.output) != ""
      modifies this
      ensures Valid() && transcripts == old(transcripts)[key := Appended(old(Thread(key)), e)]
    {
      hide Strip;
      var turns := Thread(key);
      var i := 0;
      while i < |turns| && turns[i].node != e.node
        invariant i <= |turns| && forall j :: 0 <= j < i ==> turns[j].node != e.node
      {
        i := i + 1;
      }
      assert i == FirstOf(turns, e.node);
      AppendedDistinct(turns, e);
      transcripts := transcripts[key := turns[..i] + [e]];
    }

    /** `_get_parent_messages_for_thread`. */
    method ParentMessages(key: string) returns (messages: seq<Line>)
      ensures messages == Replay(Thread(key))
    {
      var turns := Thread(key);
      messages := [];
      for i := 0 to |turns|
        invariant messages == Replay(turns[..i])
      {
        assert turns[..i + 1][..i] == turns[..i];
        messages := messages + [User(turns[i].instruction), Assistant(turns[i].output)];
      }
      assert turns[..|turns|] == turns;
    }

    /** One node on the spawn path: read the verdict, and record the exchange of a full-fidelity thread. */
    method Spawned(key: Option<string>, node: NodeId, instruction: string, result: SpawnResult, goalGate: bool, decode: Decoder)
      returns (reading: Reading)
      requires Valid()
      modifies this
      ensures Valid()
      ensures reading == if Strip(result.output) == "" then FromSpawn(result).Or(Reading(Fail, false))
                         else ParseOutcome(result.output, goalGate, decode)
      ensures transcripts ==
        if key.None? || (Strip(result.output) == "" && FromSpawn(result).None?) then old(transcripts)
        else old(transcripts)[key.value := Appended(old(Thread(key.value)), Exchange(node, instruction,
               if Strip(result.output) != "" then result.output
               else Marker(Told(reading.status, false, None, Some(EmptyFinal)))))]
    {
      hide Strip;
      hide Marker;
      if Strip(result.output) == "" {
        var recovered := FromSpawn(result);
        if recovered.None? { return Reading(Fail, false); }
        reading := recovered.value;
        if key.Some? {
          var told := Told(reading.status, reading.isExplicit, None, Some(EmptyFinal));
          MarkerIsBraceFree(told);
          Append(key.value, Exchange(node, instruction, Marker(told)));
        }
        return;
      }
      reading := ParseOutcome(result.output, goalGate, decode);
      if key.Some? { Append(key.value, Exchange(node, instruction, result.output)); }
    }

    /** A branch backend: its own, empty transcripts. */
    method Clone() returns (branch: Backend)
      ensures fresh(branch) && branch.transcripts == map[] && branch.Valid()
    {
      branch := new Backend();
    }
  }

  /** Whatever a branch runs on its clone, on the same threads or others, the parent's transcripts stay as they were. */
  method BranchIsIsolated(parent: Backend, key: string, runs: seq<Exchange>) returns (branch: Backend)
    requires parent.Valid() && forall e :: e in runs ==> Strip(e.output) != ""
    ensures fresh(branch) && parent.transcripts == old(parent.transcripts)
    ensures branch.Thread(key) == AppendedAll([], runs)
  {
    hide Strip;
    hide Appended;
    branch := parent.Clone();
    for i := 0 to |runs|
      invariant branch.Valid() && branch.Thread(key) == AppendedAll([], runs[..i])
      invariant parent.transcripts == old(parent.transcripts)
    {
      assert runs[..i + 1][..i] == runs[..i];
      assert runs[i] in runs;
      branch.Append(key, runs[i]);
    }
    assert runs[..|runs|] == runs;
  }
}
