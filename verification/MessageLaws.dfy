/** Where every turn of a history stands among the provider's messages, and with what text. */
module MessageLaws {
  import opened Prelude
  import opened Messages
  import Conditions
  import opened ConditionMeaning
  import SelectionLaws

  /** How many system turns there are. */
  function SystemsIn(turns: seq<Turn>): nat {
    if turns == [] then 0 else (if turns[0].SystemTurn? then 1 else 0) + SystemsIn(turns[1..])
  }

  /** How many other messages the turns make: one each, and one for every tool result. */
  function Width(turns: seq<Turn>): nat {
    if turns == [] then 0 else WidthOf(turns[0]) + Width(turns[1..])
  }

  function WidthOf(t: Turn): nat {
    match t
    case SystemTurn(_) => 0
    case ToolResultsTurn(results) => |results|
    case _ => 1
  }

  lemma {:induction false} SystemsCounted(turns: seq<Turn>)
    ensures |Systems(turns)| == SystemsIn(turns)
  {
    if turns != [] { SystemsCounted(turns[1..]); }
  }

  lemma {:induction false} SystemAt(a: seq<Turn>, t: Turn, b: seq<Turn>)
    requires t.SystemTurn?
    ensures var m := Systems(a + [t] + b); SystemsIn(a) < |m| && m[SystemsIn(a)] == SystemMessage(t.content)
  {
    var turns := a + [t] + b;
    if a == [] {
      assert turns[0] == t;
    } else {
      assert turns[1..] == a[1..] + [t] + b && turns[0] == a[0];
      SystemAt(a[1..], t, b);
    }
  }

  lemma {:induction false} OthersCounted(turns: seq<Turn>, pending: seq<ToolCall>, ordinal: nat, keepFrom: int)
    ensures |Others(turns, pending, ordinal, keepFrom)| == Width(turns)
    decreases |turns|
  {
    hide BuildAssistant;
    hide ElisionStub;
    if turns != [] { OthersCounted(turns[1..], Waiting(turns[0], pending), Ordinal(turns[0], ordinal), keepFrom); }
  }

  /** What an assistant turn says: reasoning first, then its text unless blank; alone, the text is plain. */
  predicate Says(t: Turn, c: Content)
    requires t.AssistantTurn?
  {
    var reasons := t.reasoning.Some? && t.reasoning.value != "";
    if reasons then
      && c.Blocks? && c.blocks != [] && c.blocks[0].Thinking? && c.blocks[0].text == t.reasoning.value
      && c.blocks[0].signature == (if t.signature == Some("") then None else t.signature)
      && c.blocks[1..] == if Blank(t.content) then [] else [TextBlock(t.content)]
    else if !Blank(t.content) then c == Content.Plain(t.content)
    else if t.calls != [] then c == Blocks([])
    else c == Content.Plain("")
  }

  lemma AssistantSays(t: Turn)
    requires t.AssistantTurn?
    ensures Says(t, BuildAssistant(t).content)
  {
    Conditions.StripBlank(t.content);
    hide Strip;
  }

  /** A result that lies outside the retention window: `k` tool-results turns come after it or more. */
  predicate Elided(a: seq<Turn>, t: Turn, b: seq<Turn>, retention: int) {
    retention > 0 && CountTools(b) + 1 > retention
  }

  predicate ShowsResult(m: Message, result: string, elided: bool) {
    m.ToolMessage? && (!elided ==> m.text == result)
  }

  /** Message `p` and those after it are what turn `t` stands for. */
  ghost predicate Stands(t: Turn, m: seq<Message>, p: nat, elided: bool) {
    p + WidthOf(t) <= |m| &&
    match t
    case SystemTurn(_) => true
    case UserTurn(content) => m[p] == UserMessage(content)
    case SteeringTurn(content) => m[p] == UserMessage(content)
    case AssistantTurn(_, calls, _, _) => m[p].AssistantMessage? && m[p].calls == calls && Says(t, m[p].content)
    case ToolResultsTurn(results) =>
      forall j :: 0 <= j < |results| ==> ShowsResult(m[p + j], results[j], elided)
  }

  lemma RenderedStands(t: Turn, pending: seq<ToolCall>, elide: bool)
    ensures |Rendered(t, pending, elide)| == WidthOf(t) && Stands(t, Rendered(t, pending, elide), 0, elide)
  {
    hide BuildAssistant;
    hide ElisionStub;
    if t.AssistantTurn? { AssistantSays(t); }
    hide Says;
  }

  lemma StandsInside(t: Turn, before: seq<Message>, m: seq<Message>, after: seq<Message>, elided: bool)
    requires Stands(t, m, 0, elided) && |m| == WidthOf(t)
    ensures Stands(t, before + m + after, |before|, elided)
  {
    hide Says;
    var whole := before + m + after;
    assert forall j :: 0 <= j < |m| ==> whole[|before| + j] == m[j];
    if t.ToolResultsTurn? {
      forall j | 0 <= j < |t.results| ensures ShowsResult(whole[|before| + j], t.results[j], elided) {
        assert ShowsResult(m[0 + j], t.results[j], elided);
      }
    }
  }

  /**
   * Every turn is rendered in its place: system turns first, in order, then all others, in order, one message each and
   * one for every tool result. A user's text, an assistant's text, calls and reasoning, and every tool result inside the
   * retention window reach the provider as they are.
   */
  lemma TurnIsRendered(a: seq<Turn>, t: Turn, b: seq<Turn>, retention: int)
    ensures var turns := a + [t] + b;
      var m := Converted(turns, retention);
      && |m| == SystemsIn(turns) + Width(turns)
      && (t.SystemTurn? ==> SystemsIn(a) < |m| && m[SystemsIn(a)] == SystemMessage(t.content))
      && Stands(t, m, SystemsIn(turns) + Width(a), Elided(a, t, b, retention))
  {
    hide Others;
    hide Systems;
    hide Rendered;
    hide Stands;
    var turns, rest := a + [t] + b, [t] + b;
    var keep := KeepFrom(turns, retention);
    var pending, ordinal := PendingAfter(a, []), CountTools(a);
    assert turns == a + rest;
    SystemsCounted(turns);
    OthersCounted(turns, [], 0, keep);
    OthersCounted(a, [], 0, keep);
    OthersSplit(a, rest, [], 0, keep);
    OthersHead(t, b, pending, ordinal, keep);
    KeepsExactly(a, t, b, retention);
    RenderedStands(t, pending, ordinal < keep);
    if t.SystemTurn? { SystemAt(a, t, b); }
    var x, y := Others(a, [], 0, keep), Rendered(t, pending, ordinal < keep);
    var z := Others(b, Waiting(t, pending), Ordinal(t, ordinal), keep);
    assert Converted(turns, retention) == (Systems(turns) + x) + y + z;
    StandsInside(t, Systems(turns) + x, y, z, ordinal < keep);
    hide CountTools;
    if !t.ToolResultsTurn? { StandsEitherWay(t, Converted(turns, retention), SystemsIn(turns) + Width(a)); }
  }

  lemma StandsEitherWay(t: Turn, m: seq<Message>, p: nat)
    requires !t.ToolResultsTurn?
    ensures Stands(t, m, p, true) == Stands(t, m, p, false)
  {
  }

  lemma OthersHead(t: Turn, b: seq<Turn>, pending: seq<ToolCall>, ordinal: nat, keep: int)
    ensures Others([t] + b, pending, ordinal, keep) ==
      Rendered(t, pending, ordinal < keep) + Others(b, Waiting(t, pending), Ordinal(t, ordinal), keep)
  {
    hide Rendered;
    assert ([t] + b)[1..] == b;
  }

  lemma KeepsExactly(a: seq<Turn>, t: Turn, b: seq<Turn>, retention: int)
    ensures t.ToolResultsTurn? ==> (CountTools(a) < KeepFrom(a + [t] + b, retention) <==> Elided(a, t, b, retention))
  {
    CountSplit(a, [t] + b);
    CountSplit([t], b);
    assert a + [t] + b == a + ([t] + b);
    assert [t][1..] == [];
  }

  /** An elided result is announced by the name of its call and its size in decimal. */
  lemma StubExactly(call: ToolCall, result: string, size: string)
    requires SelectionLaws.Numeral(size, |result|)
    ensures ToolMessageOf(Some(call), result, true) ==
      ToolMessage("[tool result elided: " + (if call.name != "" then call.name else "tool") + " " + size + " chars; re-run to see]",
                  Some(call.id))
  {
    SelectionLaws.NumeralExactly(size, |result|);
    hide Decimal;
  }

  // ---------------------------------------------------------------------------
  // What goes into a history
  // ---------------------------------------------------------------------------

  lemma {:induction false} ReplayedConcat(a: seq<Seed>, b: seq<Seed>)
    ensures Replayed(a + b) == Replayed(a) + Replayed(b)
  {
    if a == [] {
      assert a + b == b;
    } else {
      assert (a + b)[1..] == a[1..] + b && (a + b)[0] == a[0];
      ReplayedConcat(a[1..], b);
    }
  }

  /** What one seeded message is replayed as: the text of a user or an assistant, and nothing for anything else. */
  predicate ReplayOf(m: Seed, turns: seq<Turn>) {
    match m
    case NotAMessage => turns == []
    case Seeded(role, content) =>
      && (role == "user" ==> turns == [UserTurn(content)])
      && (role == "assistant" ==> turns == [AssistantTurn(content, [], None, None)])
      && (role != "user" && role != "assistant" ==> turns == [])
  }

  lemma SeedAlone(m: Seed)
    ensures ReplayOf(m, Replayed([m]))
  {
    assert [m][1..] == [] && "user"[0] != "assistant"[0];
  }

  /** Seeded messages are replayed one by one, in order. */
  lemma SeedIsReplayed(a: seq<Seed>, m: Seed, b: seq<Seed>)
    ensures Replayed([]) == []
    ensures exists turns :: ReplayOf(m, turns) && Replayed(a + [m] + b) == Replayed(a) + turns + Replayed(b)
  {
    hide ReplayOf;
    ReplayedConcat(a + [m], b);
    ReplayedConcat(a, [m]);
    SeedAlone(m);
  }

  /** The round is answered by tools: it calls some, and no cancellation stops them one by one. */
  predicate GoesOn(r: Round) {
    r.calls != [] &&
    !(!(r.batch.parallel && |r.calls| > 1) && r.batch.cancelledAt.Some? && r.batch.cancelledAt.value < |r.calls|)
  }

  /** What result `j` of a round says. */
  function ResultOf(r: Round, j: nat): string {
    if r.batch.parallel && |r.calls| > 1 && r.batch.cancelledAt.Some? then CancelledOutput else r.batch.results(j)
  }

  /** How many turns a round makes that goes on. */
  function Span(r: Round): nat {
    2 + |r.steering| + if r.warning.Some? then 1 else 0
  }

  function Spans(rounds: seq<Round>): nat {
    if rounds == [] then 0 else Span(rounds[0]) + Spans(rounds[1..])
  }

  lemma GoesOnExactly(r: Round)
    ensures GoesOn(r) <==> Answered(r)
  {
  }

  /** From `p` on: the assistant's turn; then, if tools answer it, a result per call, what was steered meanwhile, the warning. */
  ghost predicate RecordedAt(r: Round, h: seq<Turn>, p: nat) {
    && p < |h| && h[p] == AssistantTurn(r.text, r.calls, r.reasoning, r.signature)
    && (!GoesOn(r) ==> |h| == p + 1)
    && (GoesOn(r) ==>
          && p + Span(r) <= |h| && h[p + 1].ToolResultsTurn? && AllResults(r, h[p + 1].results)
          && (forall j :: 0 <= j < |r.steering| ==> h[p + 2 + j] == SteeringTurn(r.steering[j]))
          && (r.warning.Some? ==> h[p + 2 + |r.steering|] == SteeringTurn(r.warning.value)))
  }

  predicate AllResults(r: Round, results: seq<string>) {
    |results| == |r.calls| && forall j :: 0 <= j < |results| ==> results[j] == ResultOf(r, j)
  }

  lemma RoundAlone(r: Round, rest: seq<Turn>)
    requires GoesOn(r) || rest == []
    ensures RecordedAt(r, RoundTurns(r) + rest, 0) && (GoesOn(r) ==> |RoundTurns(r)| == Span(r))
  {
    GoesOnExactly(r);
    hide GoesOn;
    var h := RoundTurns(r) + rest;
    if GoesOn(r) {
      var steered := Steered(r.steering);
      assert h[1] == ToolResultsTurn(Results(r));
      forall j | 0 <= j < |r.steering| ensures h[2 + j] == steered[j] { }
    }
  }

  lemma RecordedLater(r: Round, first: seq<Turn>, h: seq<Turn>, p: nat)
    requires RecordedAt(r, h, p)
    ensures RecordedAt(r, first + h, |first| + p)
  {
    hide GoesOn;
    hide AllResults;
    var whole := first + h;
    assert forall k :: 0 <= k < |h| ==> whole[|first| + k] == h[k];
    if GoesOn(r) {
      forall j | 0 <= j < |r.steering| ensures whole[|first| + p + 2 + j] == SteeringTurn(r.steering[j]) {
        assert h[p + 2 + j] == SteeringTurn(r.steering[j]);
      }
    }
  }

  /** Round `i` is recorded right after the rounds before it, if tools answered all of those. */
  lemma {:induction false} RoundIsRecorded(rounds: seq<Round>, i: nat)
    requires i < |rounds| && forall j :: 0 <= j < i ==> GoesOn(rounds[j])
    ensures RecordedAt(rounds[i], RoundsTurns(rounds), Spans(rounds[..i]))
  {
    hide GoesOn;
    hide RecordedAt;
    hide RoundTurns;
    hide Span;
    var first, rest := RoundTurns(rounds[0]), RoundsTurns(rounds[1..]);
    GoesOnExactly(rounds[0]);
    hide Answered;
    if i > 0 {
      assert GoesOn(rounds[0]);
      forall j | 0 <= j < i - 1 ensures GoesOn(rounds[1..][j]) { assert rounds[1..][j] == rounds[j + 1]; }
      RoundIsRecorded(rounds[1..], i - 1);
      assert rounds[..i][1..] == rounds[1..][..i - 1];
      RoundAlone(rounds[0], rest);
      RecordedLater(rounds[i], first, rest, Spans(rounds[1..][..i - 1]));
    } else {
      RoundAlone(rounds[0], if GoesOn(rounds[0]) then rest else []);
      assert first + [] == first;
    }
  }
}
