/**
 * The agent loop's history (agent_session.py, turns.py) and its conversion to provider messages
 * (messages.py): tool-call pairing and retention of old tool results.
 */
module Messages {
  import opened Prelude

  // ---------------------------------------------------------------------------
  // Turns
  // ---------------------------------------------------------------------------

  datatype ToolCall = ToolCall(id: string, name: string, arguments: string)

  datatype Turn =
    | SystemTurn(content: string)
    | UserTurn(content: string)
    | SteeringTurn(content: string)
    | AssistantTurn(content: string, calls: seq<ToolCall>, reasoning: Option<string>, signature: Option<string>)
    | ToolResultsTurn(results: seq<string>)

  // ---------------------------------------------------------------------------
  // Messages
  // ---------------------------------------------------------------------------

  datatype Block = Thinking(text: string, signature: Option<string>) | TextBlock(text: string)

  datatype Content = Plain(text: string) | Blocks(blocks: seq<Block>)

  datatype Message =
    | SystemMessage(text: string)
    | UserMessage(text: string)
    | AssistantMessage(content: Content, calls: seq<ToolCall>)
    | ToolMessage(text: string, callId: Option<string>)

  /** What replaces a tool result outside the retention window. */
  function ElisionStub(name: string, size: nat): string {
    "[tool result elided: " + name + " " + Decimal(size) + " chars; re-run to see]"
  }

  function Signed(signature: Option<string>): Option<string> {
    if Truthy(signature) then signature else None
  }

  function BuildAssistant(t: Turn): (m: Message)
    requires t.AssistantTurn?
    ensures m.AssistantMessage? && m.calls == t.calls
  {
    var hasText := Strip(t.content) != "";
    var content :=
      if Truthy(t.reasoning) then
        Blocks([Thinking(t.reasoning.value, Signed(t.signature))] + if hasText then [TextBlock(t.content)] else [])
      else if hasText then Plain(t.content)
      else if t.calls != [] then Blocks([])
      else Plain("");
    AssistantMessage(content, t.calls)
  }

  /** An assistant message that calls tools or carries reasoning never holds a blank text block. */
  lemma NoBlankText(t: Turn)
    requires t.AssistantTurn? && (t.calls != [] || Truthy(t.reasoning))
    ensures var m := BuildAssistant(t);
      && (m.content.Plain? ==> Strip(m.content.text) != "")
      && (m.content.Blocks? ==> forall b :: b in m.content.blocks && b.TextBlock? ==> Strip(b.text) != "")
  {
    hide Strip;
  }

  // ---------------------------------------------------------------------------
  // Conversion
  // ---------------------------------------------------------------------------

  function CallAt(calls: seq<ToolCall>, i: nat): Option<ToolCall> {
    if i < |calls| then Some(calls[i]) else None
  }

  function NameOf(call: Option<ToolCall>): string {
    if call.Some? && call.value.name != "" then call.value.name else "tool"
  }

  function ToolMessageOf(call: Option<ToolCall>, result: string, elide: bool): Message {
    ToolMessage(if elide then ElisionStub(NameOf(call), |result|) else result,
                if call.Some? then Some(call.value.id) else None)
  }

  function ToolMessages(calls: seq<ToolCall>, results: seq<string>, elide: bool): (r: seq<Message>)
    ensures |r| == |results|
    ensures forall j :: 0 <= j < |r| ==> r[j] == ToolMessageOf(CallAt(calls, j), results[j], elide)
  {
    seq(|results|, j requires 0 <= j < |results| => ToolMessageOf(CallAt(calls, j), results[j], elide))
  }

  function CountTools(turns: seq<Turn>): nat {
    if turns == [] then 0 else (if turns[0].ToolResultsTurn? then 1 else 0) + CountTools(turns[1..])
  }

  /** Ordinals of tool-results turns below this are elided; -1 elides nothing. */
  function KeepFrom(turns: seq<Turn>, retention: int): int {
    if retention > 0 then CountTools(turns) - retention else -1
  }

  function Systems(turns: seq<Turn>): seq<Message> {
    if turns == [] then []
    else (if turns[0].SystemTurn? then [SystemMessage(turns[0].content)] else []) + Systems(turns[1..])
  }

  /** The tool calls that wait for results after one more turn. */
  function Waiting(t: Turn, pending: seq<ToolCall>): seq<ToolCall> {
    match t
    case AssistantTurn(_, calls, _, _) => if calls != [] then calls else pending
    case ToolResultsTurn(_) => []
    case _ => pending
  }

  /** What one turn adds besides system messages. */
  function Rendered(t: Turn, pending: seq<ToolCall>, elide: bool): seq<Message> {
    match t
    case SystemTurn(_) => []
    case UserTurn(content) => [UserMessage(content)]
    case SteeringTurn(content) => [UserMessage(content)]
    case AssistantTurn(_, _, _, _) => [BuildAssistant(t)]
    case ToolResultsTurn(results) => ToolMessages(pending, results, elide)
  }

  function Ordinal(t: Turn, ordinal: nat): nat {
    if t.ToolResultsTurn? then ordinal + 1 else ordinal
  }

  function Others(turns: seq<Turn>, pending: seq<ToolCall>, ordinal: nat, keepFrom: int): seq<Message> {
    if turns == [] then []
    else
      Rendered(turns[0], pending, ordinal < keepFrom) +
      Others(turns[1..], Waiting(turns[0], pending), Ordinal(turns[0], ordinal), keepFrom)
  }

  function Converted(turns: seq<Turn>, retention: int): seq<Message> {
    Systems(turns) + Others(turns, [], 0, KeepFrom(turns, retention))
  }

  method CountToolTurns(turns: seq<Turn>) returns (total: nat)
    ensures total == CountTools(turns)
  {
    total := 0;
    for i := 0 to |turns|
      invariant total + CountTools(turns[i..]) == CountTools(turns)
    {
      assert turns[i..][1..] == turns[i + 1..];
      if turns[i].ToolResultsTurn? { total := total + 1; }
    }
  }

  method RenderResults(pending: seq<ToolCall>, results: seq<string>, elide: bool) returns (group: seq<Message>)
    ensures group == ToolMessages(pending, results, elide)
  {
    hide ElisionStub;
    group := [];
    for j := 0 to |results|
      invariant group == ToolMessages(pending, results, elide)[..j]
    {
      var call := if j < |pending| then Some(pending[j]) else None;
      var text := if elide then ElisionStub(NameOf(call), |results[j]|) else results[j];
      group := group + [ToolMessage(text, if call.Some? then Some(call.value.id) else None)];
    }
    assert group == ToolMessages(pending, results, elide);
  }

  /** `convert_history_to_messages`. */
  method Convert(turns: seq<Turn>, retention: int) returns (messages: seq<Message>)
    ensures messages == Converted(turns, retention)
  {
    hide BuildAssistant;
    hide ToolMessages;
    hide CountTools;
    hide Others;
    hide Systems;
    var keepFrom := -1;
    if retention > 0 {
      var total := CountToolTurns(turns);
      keepFrom := total - retention;
    }
    var system: seq<Message>, others: seq<Message>, pending: seq<ToolCall> := [], [], [];
    var ordinal: nat := 0;
    assert turns[0..] == turns;
    for i := 0 to |turns|
      invariant system + Systems(turns[i..]) == Systems(turns)
      invariant others + Others(turns[i..], pending, ordinal, keepFrom) == Others(turns, [], 0, keepFrom)
    {
      ConvertStep(turns, i, system, others, pending, ordinal, keepFrom);
      match turns[i] {
        case SystemTurn(content) => system := system + [SystemMessage(content)];
        case UserTurn(content) => others := others + [UserMessage(content)];
        case SteeringTurn(content) => others := others + [UserMessage(content)];
        case AssistantTurn(_, calls, _, _) =>
          if calls != [] { pending := calls; }
          others := others + [BuildAssistant(turns[i])];
        case ToolResultsTurn(results) =>
          var elide := ordinal < keepFrom;
          ordinal := ordinal + 1;
          var group := RenderResults(pending, results, elide);
          others := others + group;
          pending := [];
      }
    }
    assert turns[|turns|..] == [];
    NothingLeft(pending, ordinal, keepFrom);
    assert system + [] == system && others + [] == others;
    return system + others;
  }

  lemma NothingLeft(pending: seq<ToolCall>, ordinal: nat, keepFrom: int)
    ensures Systems([]) == [] && Others([], pending, ordinal, keepFrom) == []
  {
  }

  lemma ConvertStep(turns: seq<Turn>, i: nat, system: seq<Message>, others: seq<Message>, pending: seq<ToolCall>, ordinal: nat, keepFrom: int)
    requires i < |turns|
    ensures var t := turns[i];
      && system + Systems(turns[i..]) ==
           (if t.SystemTurn? then system + [SystemMessage(t.content)] else system) + Systems(turns[i + 1..])
      && others + Others(turns[i..], pending, ordinal, keepFrom) ==
           others + Rendered(t, pending, ordinal < keepFrom) +
           Others(turns[i + 1..], Waiting(t, pending), Ordinal(t, ordinal), keepFrom)
      && others + [] == others
  {
    hide Rendered;
    assert turns[i..][1..] == turns[i + 1..];
  }

  // ---------------------------------------------------------------------------
  // The loop that builds the history
  // ---------------------------------------------------------------------------

  /** Every tool-results turn answers the assistant turn right before it, call by call. */
  ghost predicate Paired(turns: seq<Turn>) {
    forall i :: 0 <= i < |turns| && turns[i].ToolResultsTurn? ==>
      && i > 0 && turns[i - 1].AssistantTurn? && turns[i - 1].calls != []
      && |turns[i - 1].calls| == |turns[i].results|
  }

  lemma PairedPush(turns: seq<Turn>, t: Turn)
    requires Paired(turns) && !t.ToolResultsTurn?
    ensures Paired(turns + [t])
  {
  }

  /** How a batch of tool calls goes: results one by one, a cancellation possibly in between. */
  datatype Batch = Batch(parallel: bool, results: nat -> string, cancelledAt: Option<nat>)

  /** One provider answer and what follows it. */
  datatype Round = Round(text: string, calls: seq<ToolCall>, reasoning: Option<string>, signature: Option<string>,
                         batch: Batch, steering: seq<string>, warning: Option<string>)

  const CancelledOutput := "Tool execution was cancelled by user"

  /** One message found on the mounted context. */
  datatype Seed = Seeded(role: string, content: string) | NotAMessage

  /** The turns seeded messages are replayed as: users' and assistants' text, in order; anything else is skipped. */
  function Replayed(messages: seq<Seed>): (r: seq<Turn>)
    ensures forall i :: 0 <= i < |r| ==> r[i].UserTurn? || (r[i].AssistantTurn? && r[i].calls == [])
  {
    if messages == [] then []
    else
      var m := messages[0];
      (if m.Seeded? && m.role == "user" then [UserTurn(m.content)]
       else if m.Seeded? && m.role == "assistant" then [AssistantTurn(m.content, [], None, None)]
       else []) + Replayed(messages[1..])
  }

  /** Steering as it is put into the history. */
  function Steered(queue: seq<string>): (r: seq<Turn>)
    ensures |r| == |queue| && forall i :: 0 <= i < |r| ==> r[i] == SteeringTurn(queue[i])
  {
    seq(|queue|, i requires 0 <= i < |queue| => SteeringTurn(queue[i]))
  }

  /** Tools answer the round: it calls some, and their batch yields results. */
  predicate Answered(r: Round) {
    r.calls != [] && (Together(r) || r.batch.cancelledAt.None? || r.batch.cancelledAt.value >= |r.calls|)
  }

  predicate Together(r: Round) {
    r.batch.parallel && |r.calls| > 1
  }

  function Results(r: Round): seq<string> {
    seq(|r.calls|, (i: nat) => if Together(r) && r.batch.cancelledAt.Some? then CancelledOutput else r.batch.results(i))
  }

  function RoundTurns(r: Round): seq<Turn> {
    [AssistantTurn(r.text, r.calls, r.reasoning, r.signature)] +
    if Answered(r) then
      [ToolResultsTurn(Results(r))] + Steered(r.steering) + (if r.warning.Some? then [SteeringTurn(r.warning.value)] else [])
    else []
  }

  /** What the rounds of one input add: all of them up to the first that tools do not answer. */
  function RoundsTurns(rounds: seq<Round>): seq<Turn> {
    if rounds == [] then []
    else RoundTurns(rounds[0]) + if Answered(rounds[0]) then RoundsTurns(rounds[1..]) else []
  }

  lemma ResultsAre(r: Round, results: seq<string>)
    requires |results| == |r.calls|
    requires forall i :: 0 <= i < |results| ==>
      results[i] == if Together(r) && r.batch.cancelledAt.Some? then CancelledOutput else r.batch.results(i)
    ensures results == Results(r)
  {
  }

  lemma PairedAnswer(before: seq<Turn>, answer: Turn, results: seq<string>)
    requires Paired(before + [answer]) && answer.AssistantTurn? && answer.calls != [] && |results| == |answer.calls|
    ensures Paired(before + [answer] + [ToolResultsTurn(results)])
  {
    var h := before + [answer];
    assert h[|before|] == answer;
  }

  class AgentSession {
    var history: seq<Turn>
    var hydrated: bool

    constructor ()
      ensures history == [] && !hydrated
    {
      history, hydrated := [], false;
    }

    method Append(t: Turn)
      modifies this`history
      ensures history == old(history) + [t]
    {
      history := history + [t];
    }

    /** Run a batch; a cancelled parallel batch still answers every call, a cancelled sequential one raises. */
    method ExecuteToolCalls(calls: seq<ToolCall>, batch: Batch) returns (results: Option<seq<string>>)
      ensures results.Some? ==> |results.value| == |calls|
      ensures results.None? <==> !(batch.parallel && |calls| > 1) && batch.cancelledAt.Some? && batch.cancelledAt.value < |calls|
      ensures results.Some? ==> forall i :: 0 <= i < |calls| ==>
        results.value[i] == if batch.parallel && |calls| > 1 && batch.cancelledAt.Some? then CancelledOutput else batch.results(i)
    {
      if batch.parallel && |calls| > 1 {
        if batch.cancelledAt.Some? {
          return Some(seq(|calls|, _ => CancelledOutput));
        }
        return Some(seq(|calls|, (i: nat) => batch.results(i)));
      }
      var done: seq<string> := [];
      for i := 0 to |calls|
        invariant |done| == i && forall j :: 0 <= j < i ==> done[j] == batch.results(j)
        invariant batch.cancelledAt.Some? ==> batch.cancelledAt.value >= i
      {
        if batch.cancelledAt == Some(i) { return None; }
        done := done + [batch.results(i)];
      }
      return Some(done);
    }

    /** Replay what was seeded on the mounted context, once per session, whatever comes of it. */
    method Hydrate(context: Option<seq<Seed>>)
      requires Paired(history)
      modifies this
      ensures hydrated && Paired(history)
      ensures history == if old(hydrated) then old(history) else old(history) + Replayed(context.Or([]))
    {
      hide Paired;
      if hydrated { return; }
      hydrated := true;
      if context.None? { return; }
      var messages := context.value;
      assert messages[0..] == messages;
      for i := 0 to |messages|
        invariant hydrated && Paired(history)
        invariant history + Replayed(messages[i..]) == old(history) + Replayed(messages)
      {
        var m := messages[i];
        assert messages[i..][1..] == messages[i + 1..];
        ghost var rest := Replayed(messages[i + 1..]);
        if m.Seeded? && m.role == "user" {
          PairedPush(history, UserTurn(m.content));
          assert history + ([UserTurn(m.content)] + rest) == history + [UserTurn(m.content)] + rest;
          Append(UserTurn(m.content));
        } else if m.Seeded? && m.role == "assistant" {
          var t := AssistantTurn(m.content, [], None, None);
          PairedPush(history, t);
          assert history + ([t] + rest) == history + [t] + rest;
          Append(t);
        }
      }
      assert messages[|messages|..] == [];
    }

    method DrainSteering(queue: seq<string>)
      requires Paired(history)
      modifies this`history
      ensures Paired(history) && history == old(history) + Steered(queue)
    {
      hide Paired;
      for i := 0 to |queue|
        invariant Paired(history) && history == old(history) + Steered(queue[..i])
      {
        PairedPush(history, SteeringTurn(queue[i]));
        assert Steered(queue[..i + 1]) == Steered(queue[..i]) + [SteeringTurn(queue[i])];
        Append(SteeringTurn(queue[i]));
      }
      assert queue[..|queue|] == queue;
    }

    /** One provider answer and what follows it; whether the loop goes on. */
    method PlayRound(r: Round) returns (more: bool)
      requires Paired(history)
      modifies this`history
      ensures Paired(history) && history == old(history) + RoundTurns(r) && more == Answered(r)
    {
      hide Paired;
      ghost var before := history;
      var answer := AssistantTurn(r.text, r.calls, r.reasoning, r.signature);
      PairedPush(history, answer);
      Append(answer);
      if r.calls == [] { return false; }
      var results := ExecuteToolCalls(r.calls, r.batch);
      if results.None? { return false; }
      ResultsAre(r, results.value);
      hide Results;
      hide Together;
      PairedAnswer(before, answer, results.value);
      Append(ToolResultsTurn(results.value));
      DrainSteering(r.steering);
      if r.warning.Some? {
        PairedPush(history, SteeringTurn(r.warning.value));
        Append(SteeringTurn(r.warning.value));
      }
      return true;
    }

    /** One user input: seeded history first, then provider rounds until an answer without tool calls, or an interruption. */
    method ProcessInput(prompt: string, context: Option<seq<Seed>>, steering: seq<string>, rounds: seq<Round>)
      requires Paired(history)
      modifies this
      ensures Paired(history)
      ensures history == old(history) + (if old(hydrated) then [] else Replayed(context.Or([]))) + [UserTurn(prompt)] +
                         Steered(steering) + RoundsTurns(rounds)
    {
      hide Paired;
      hide RoundTurns;
      Hydrate(context);
      assert history == old(history) + if old(hydrated) then [] else Replayed(context.Or([]));
      PairedPush(history, UserTurn(prompt));
      Append(UserTurn(prompt));
      DrainSteering(steering);
      ghost var start := history;
      assert rounds[0..] == rounds;
      for i := 0 to |rounds|
        invariant Paired(history) && history + RoundsTurns(rounds[i..]) == start + RoundsTurns(rounds)
      {
        assert rounds[i..][1..] == rounds[i + 1..];
        ghost var before, rest := history, RoundsTurns(rounds[i + 1..]);
        assert before + (RoundTurns(rounds[i]) + rest) == before + RoundTurns(rounds[i]) + rest;
        var more := PlayRound(rounds[i]);
        if !more { return; }
      }
      assert rounds[|rounds|..] == [];
    }
  }

  // ---------------------------------------------------------------------------
  // Pairing
  // ---------------------------------------------------------------------------

  /** Position `p` is a tool message answering call `j` of the assistant message `j + 1` places before it. */
  ghost predicate Answers(messages: seq<Message>, p: int, j: int) {
    && 0 <= j && 0 <= p - 1 - j && p < |messages| && messages[p].ToolMessage?
    && messages[p - 1 - j].AssistantMessage? && j < |messages[p - 1 - j].calls|
    && messages[p].callId == Some(messages[p - 1 - j].calls[j].id)
    && forall k :: p - 1 - j < k < p ==> messages[k].ToolMessage?
  }

  ghost predicate AllAnswer(messages: seq<Message>) {
    forall p :: 0 <= p < |messages| && messages[p].ToolMessage? ==> exists j :: Answers(messages, p, j)
  }

  lemma AnswersConcat(a: seq<Message>, b: seq<Message>)
    requires AllAnswer(a) && AllAnswer(b)
    ensures AllAnswer(a + b)
  {
    var m := a + b;
    forall p | 0 <= p < |m| && m[p].ToolMessage? ensures exists j :: Answers(m, p, j) {
      if p < |a| {
        var j :| Answers(a, p, j);
        assert Answers(m, p, j);
      } else {
        var q := p - |a|;
        var j :| Answers(b, q, j);
        assert forall k :: p - 1 - j < k < p ==> m[k] == b[k - |a|];
        assert Answers(m, p, j);
      }
    }
  }

  /** One completed round: the assistant message and its tool messages. */
  lemma GroupAnswers(t: Turn, results: seq<string>, elide: bool)
    requires t.AssistantTurn? && |results| == |t.calls|
    ensures AllAnswer([BuildAssistant(t)] + ToolMessages(t.calls, results, elide))
  {
    hide ElisionStub;
    hide BuildAssistant;
    var a, rest := BuildAssistant(t), ToolMessages(t.calls, results, elide);
    var m := [a] + rest;
    assert forall p :: 1 <= p < |m| ==> m[p] == rest[p - 1];
    forall p | 0 <= p < |m| && m[p].ToolMessage? ensures exists j :: Answers(m, p, j) {
      assert Answers(m, p, p - 1);
    }
  }

  lemma GroupRendered(turns: seq<Turn>, pending: seq<ToolCall>, ordinal: nat, keepFrom: int)
    requires Paired(turns) && |turns| > 1 && turns[1].ToolResultsTurn?
    ensures turns[0].AssistantTurn? && |turns[0].calls| == |turns[1].results|
    ensures Others(turns, pending, ordinal, keepFrom) ==
      [BuildAssistant(turns[0])] + ToolMessages(turns[0].calls, turns[1].results, ordinal < keepFrom) +
      Others(turns[2..], [], ordinal + 1, keepFrom)
  {
    hide ElisionStub;
    hide BuildAssistant;
    hide ToolMessages;
    assert turns[1..][1..] == turns[2..] && turns[1..][0] == turns[1];
    assert Others(turns[1..], turns[0].calls, ordinal, keepFrom) ==
      ToolMessages(turns[0].calls, turns[1].results, ordinal < keepFrom) + Others(turns[2..], [], ordinal + 1, keepFrom);
  }

  lemma {:induction false} OthersAnswer(turns: seq<Turn>, pending: seq<ToolCall>, ordinal: nat, keepFrom: int)
    requires Paired(turns)
    ensures AllAnswer(Others(turns, pending, ordinal, keepFrom))
    decreases |turns|
  {
    hide ElisionStub;
    hide AllAnswer;
    hide ToolMessages;
    if turns == [] {
      NoToolsAnswer([]);
    } else if |turns| > 1 && turns[1].ToolResultsTurn? {
      var t, r := turns[0], turns[1];
      var rest := turns[2..];
      PairedDrop(turns, 2);
      GroupRendered(turns, pending, ordinal, keepFrom);
      GroupAnswers(t, r.results, ordinal < keepFrom);
      OthersAnswer(rest, [], ordinal + 1, keepFrom);
      AnswersConcat([BuildAssistant(t)] + ToolMessages(t.calls, r.results, ordinal < keepFrom), Others(rest, [], ordinal + 1, keepFrom));
    } else {
      var first := Rendered(turns[0], pending, ordinal < keepFrom);
      PairedDrop(turns, 1);
      NoToolsAnswer(first);
      OthersAnswer(turns[1..], Waiting(turns[0], pending), Ordinal(turns[0], ordinal), keepFrom);
      AnswersConcat(first, Others(turns[1..], Waiting(turns[0], pending), Ordinal(turns[0], ordinal), keepFrom));
    }
  }

  lemma NoToolsAnswer(m: seq<Message>)
    requires forall p :: 0 <= p < |m| ==> !m[p].ToolMessage?
    ensures AllAnswer(m)
  {
  }

  lemma PairedDrop(turns: seq<Turn>, n: nat)
    requires Paired(turns) && n <= |turns| && (n < |turns| ==> !turns[n].ToolResultsTurn? || (n > 0 && !turns[n - 1].AssistantTurn?))
    ensures Paired(turns[n..])
  {
    if n < |turns| { assert !turns[n].ToolResultsTurn?; }
    forall i | 0 <= i < |turns[n..]| && turns[n..][i].ToolResultsTurn?
      ensures i > 0 && turns[n..][i - 1].AssistantTurn? && turns[n..][i - 1].calls != [] &&
              |turns[n..][i - 1].calls| == |turns[n..][i].results|
    {
      assert turns[n..][i] == turns[n + i];
      assert i > 0 ==> turns[n..][i - 1] == turns[n + i - 1];
    }
  }

  lemma {:induction false} SystemsOnly(turns: seq<Turn>)
    ensures forall p :: 0 <= p < |Systems(turns)| ==> Systems(turns)[p].SystemMessage?
  {
    if turns != [] { SystemsOnly(turns[1..]); }
  }

  /** From any history the loop can build, every tool message carries the id of the call it answers, in its place. */
  lemma EveryResultFindsItsCall(turns: seq<Turn>, retention: int)
    requires Paired(turns)
    ensures AllAnswer(Converted(turns, retention))
  {
    SystemsOnly(turns);
    NoToolsAnswer(Systems(turns));
    OthersAnswer(turns, [], 0, KeepFrom(turns, retention));
    AnswersConcat(Systems(turns), Others(turns, [], 0, KeepFrom(turns, retention)));
  }

  // ---------------------------------------------------------------------------
  // Retention
  // ---------------------------------------------------------------------------

  /** Same message but for the text of a tool result. */
  predicate SameShape(a: Message, b: Message) {
    if a.ToolMessage? then b.ToolMessage? && a.callId == b.callId else a == b
  }

  predicate SameShapes(a: seq<Message>, b: seq<Message>) {
    |a| == |b| && forall p :: 0 <= p < |a| ==> SameShape(a[p], b[p])
  }

  lemma {:induction false} ShapesAlike(turns: seq<Turn>, pending: seq<ToolCall>, ordinal: nat, a: int, b: int)
    ensures SameShapes(Others(turns, pending, ordinal, a), Others(turns, pending, ordinal, b))
    decreases |turns|
  {
    hide ElisionStub;
    hide BuildAssistant;
    if turns != [] {
      ShapesAlike(turns[1..], Waiting(turns[0], pending), Ordinal(turns[0], ordinal), a, b);
    }
  }

  /** The scan of the second part of a history, continued from the first. */
  function PendingAfter(turns: seq<Turn>, pending: seq<ToolCall>): seq<ToolCall> {
    if turns == [] then pending else PendingAfter(turns[1..], Waiting(turns[0], pending))
  }

  lemma {:induction false} OthersSplit(a: seq<Turn>, b: seq<Turn>, pending: seq<ToolCall>, ordinal: nat, keepFrom: int)
    ensures Others(a + b, pending, ordinal, keepFrom) ==
      Others(a, pending, ordinal, keepFrom) + Others(b, PendingAfter(a, pending), ordinal + CountTools(a), keepFrom)
    decreases |a|
  {
    hide Rendered;
    if a == [] {
      assert a + b == b;
    } else {
      assert (a + b)[1..] == a[1..] + b && (a + b)[0] == a[0];
      OthersSplit(a[1..], b, Waiting(a[0], pending), Ordinal(a[0], ordinal), keepFrom);
    }
  }

  lemma {:induction false} CountSplit(a: seq<Turn>, b: seq<Turn>)
    ensures CountTools(a + b) == CountTools(a) + CountTools(b)
  {
    if a == [] {
      assert a + b == b;
    } else {
      assert (a + b)[1..] == a[1..] + b && (a + b)[0] == a[0];
      CountSplit(a[1..], b);
    }
  }

  /** Past the window nothing is elided. */
  lemma {:induction false} KeptVerbatim(turns: seq<Turn>, pending: seq<ToolCall>, ordinal: nat, keepFrom: int)
    requires ordinal >= keepFrom
    ensures Others(turns, pending, ordinal, keepFrom) == Others(turns, pending, ordinal, -1)
    decreases |turns|
  {
    hide Rendered;
    if turns != [] {
      KeptVerbatim(turns[1..], Waiting(turns[0], pending), Ordinal(turns[0], ordinal), keepFrom);
    }
  }

  /** A tool result replaced by a stub that tells its true size. */
  ghost predicate StubOf(m: Message, plain: Message) {
    m.ToolMessage? ==> plain.ToolMessage? && exists name :: m.text == ElisionStub(name, |plain.text|)
  }

  ghost predicate AllStubs(x: seq<Message>, y: seq<Message>) {
    |x| == |y| && forall p :: 0 <= p < |x| ==> StubOf(x[p], y[p])
  }

  /** Before the window everything is elided. */
  lemma {:induction false} ElidedBefore(turns: seq<Turn>, pending: seq<ToolCall>, ordinal: nat, keepFrom: int)
    requires ordinal + CountTools(turns) <= keepFrom
    ensures AllStubs(Others(turns, pending, ordinal, keepFrom), Others(turns, pending, ordinal, -1))
    decreases |turns|
  {
    hide AllStubs;
    hide Rendered;
    if turns == [] {
      SystemsAreStubs([]);
    } else {
      var pendingNext, ordinalNext := Waiting(turns[0], pending), Ordinal(turns[0], ordinal);
      ElidedBefore(turns[1..], pendingNext, ordinalNext, keepFrom);
      RenderedStubs(turns[0], pending, ordinal < keepFrom);
      StubsConcat(Rendered(turns[0], pending, ordinal < keepFrom), Rendered(turns[0], pending, false),
                  Others(turns[1..], pendingNext, ordinalNext, keepFrom), Others(turns[1..], pendingNext, ordinalNext, -1));
    }
  }

  lemma RenderedStubs(t: Turn, pending: seq<ToolCall>, elide: bool)
    requires t.ToolResultsTurn? ==> elide
    ensures AllStubs(Rendered(t, pending, elide), Rendered(t, pending, false))
  {
    hide ElisionStub;
    var x, y := Rendered(t, pending, elide), Rendered(t, pending, false);
    forall p | 0 <= p < |x| ensures StubOf(x[p], y[p]) {
      if t.ToolResultsTurn? {
        assert x[p].text == ElisionStub(NameOf(CallAt(pending, p)), |y[p].text|);
      }
    }
  }

  /**
   * Retention changes only texts of tool results: with `k > 0` the messages have the same number, roles,
   * order and ids as without. Cut the history before its last `k` tool-results turns: everything after the
   * cut is as without retention, every tool result before it is a stub of its true size.
   */
  lemma RetentionExactly(a: seq<Turn>, b: seq<Turn>, k: int)
    requires k > 0 && (CountTools(b) == k || (a == [] && CountTools(b) <= k))
    ensures SameShapes(Converted(a + b, k), Converted(a + b, 0))
    ensures var cut := |Systems(a + b)| + |Others(a, [], 0, -1)|;
      && cut <= |Converted(a + b, k)|
      && Converted(a + b, k)[cut..] == Converted(a + b, 0)[cut..]
      && AllStubs(Converted(a + b, k)[..cut], Converted(a + b, 0)[..cut])
  {
    hide Others;
    hide Systems;
    hide CountTools;
    hide AllStubs;
    hide SameShape;
    CutParts(a, b, k);
    var turns := a + b;
    var keep := KeepFrom(turns, k);
    ShapesAlike(turns, [], 0, keep, -1);
    SystemsOnly(turns);
    var sys, head, plain := Systems(turns), Others(a, [], 0, keep), Others(a, [], 0, -1);
    var tail := Others(b, PendingAfter(a, []), CountTools(a), keep);
    SystemsAreStubs(sys);
    SystemsAlike(sys);
    ShapesConcat(sys, Others(turns, [], 0, keep), Others(turns, [], 0, -1));
    StubsConcat(sys, sys, head, plain);
    CutAt(sys, head, plain, tail);
  }

  /** How the two conversions of a cut history are made up. */
  lemma CutParts(a: seq<Turn>, b: seq<Turn>, k: int)
    requires k > 0 && (CountTools(b) == k || (a == [] && CountTools(b) <= k))
    ensures var turns := a + b;
      var keep := KeepFrom(turns, k);
      var head, plain := Others(a, [], 0, keep), Others(a, [], 0, -1);
      var tail := Others(b, PendingAfter(a, []), CountTools(a), keep);
      && Others(turns, [], 0, keep) == head + tail && Others(turns, [], 0, -1) == plain + tail
      && AllStubs(head, plain) && (a != [] ==> keep == CountTools(a))
  {
    hide Others;
    hide CountTools;
    hide AllStubs;
    var turns := a + b;
    var keep := KeepFrom(turns, k);
    CountSplit(a, b);
    OthersSplit(a, b, [], 0, keep);
    OthersSplit(a, b, [], 0, -1);
    NothingCounted();
    KeptVerbatim(b, PendingAfter(a, []), CountTools(a), keep);
    if a != [] {
      ElidedBefore(a, [], 0, keep);
    } else {
      NothingRendered(keep);
      NothingRendered(-1);
      SystemsAreStubs([]);
    }
  }

  lemma StubsConcat(a: seq<Message>, b: seq<Message>, x: seq<Message>, y: seq<Message>)
    requires AllStubs(a, b) && AllStubs(x, y)
    ensures AllStubs(a + x, b + y)
  {
    hide StubOf;
    forall p | 0 <= p < |a + x| ensures StubOf((a + x)[p], (b + y)[p]) {
      if p < |a| { assert StubOf(a[p], b[p]); } else { assert StubOf(x[p - |a|], y[p - |a|]); }
    }
  }

  // ---------------------------------------------------------------------------
  // What a stub names
  // ---------------------------------------------------------------------------

  /** The stub at `p` names the very call it answers and the size of the result it replaces. */
  ghost predicate NamesItsCall(x: seq<Message>, y: seq<Message>, p: int) {
    exists j :: Answers(x, p, j) && p < |y| && y[p].ToolMessage? &&
                x[p].text == ElisionStub(NameOf(Some(x[p - 1 - j].calls[j])), |y[p].text|)
  }

  ghost predicate AllName(x: seq<Message>, y: seq<Message>) {
    |x| == |y| && forall p :: 0 <= p < |x| && x[p].ToolMessage? ==> NamesItsCall(x, y, p)
  }

  lemma NamesConcat(a: seq<Message>, b: seq<Message>, x: seq<Message>, y: seq<Message>)
    requires AllName(a, b) && AllName(x, y)
    ensures AllName(a + x, b + y)
  {
    hide ElisionStub;
    var m, n := a + x, b + y;
    forall p | 0 <= p < |m| && m[p].ToolMessage? ensures NamesItsCall(m, n, p) {
      if p < |a| {
        NamesAppended(a, b, x, y, p);
      } else {
        NamesPrepended(a, b, x, y, p - |a|);
      }
    }
  }

  lemma NamesAppended(a: seq<Message>, b: seq<Message>, x: seq<Message>, y: seq<Message>, p: nat)
    requires |a| == |b| && p < |a| && NamesItsCall(a, b, p)
    ensures NamesItsCall(a + x, b + y, p)
  {
    hide ElisionStub;
    var j :| Answers(a, p, j) && a[p].text == ElisionStub(NameOf(Some(a[p - 1 - j].calls[j])), |b[p].text|);
    assert Answers(a + x, p, j);
  }

  lemma NamesPrepended(a: seq<Message>, b: seq<Message>, x: seq<Message>, y: seq<Message>, q: nat)
    requires |a| == |b| && |x| == |y| && q < |x| && NamesItsCall(x, y, q)
    ensures NamesItsCall(a + x, b + y, |a| + q)
  {
    hide ElisionStub;
    var p := |a| + q;
    var m := a + x;
    var j :| Answers(x, q, j) && x[q].text == ElisionStub(NameOf(Some(x[q - 1 - j].calls[j])), |y[q].text|);
    assert forall k :: p - 1 - j <= k <= p ==> m[k] == x[k - |a|];
    assert Answers(m, p, j);
  }

  lemma GroupNames(t: Turn, results: seq<string>)
    requires t.AssistantTurn? && |results| == |t.calls|
    ensures AllName([BuildAssistant(t)] + ToolMessages(t.calls, results, true), [BuildAssistant(t)] + ToolMessages(t.calls, results, false))
  {
    hide ElisionStub;
    hide BuildAssistant;
    var a, xs, ys := BuildAssistant(t), ToolMessages(t.calls, results, true), ToolMessages(t.calls, results, false);
    var x, y := [a] + xs, [a] + ys;
    assert forall p :: 1 <= p < |x| ==> x[p] == xs[p - 1] && y[p] == ys[p - 1];
    forall p | 0 <= p < |x| && x[p].ToolMessage? ensures NamesItsCall(x, y, p) {
      assert Answers(x, p, p - 1);
    }
  }

  lemma NoToolsName(m: seq<Message>)
    requires forall p :: 0 <= p < |m| ==> !m[p].ToolMessage?
    ensures AllName(m, m)
  {
  }

  /** In the elided part of a history the loop can build, every stub names its call. */
  lemma {:induction false} OthersName(turns: seq<Turn>, pending: seq<ToolCall>, ordinal: nat, keepFrom: int)
    requires Paired(turns) && ordinal + CountTools(turns) <= keepFrom
    ensures AllName(Others(turns, pending, ordinal, keepFrom), Others(turns, pending, ordinal, -1))
    decreases |turns|
  {
    hide ElisionStub;
    hide AllName;
    hide ToolMessages;
    if turns == [] {
      NoToolsName([]);
    } else if |turns| > 1 && turns[1].ToolResultsTurn? {
      var t, r, rest := turns[0], turns[1], turns[2..];
      PairedDrop(turns, 2);
      CountTwo(turns);
      GroupRendered(turns, pending, ordinal, keepFrom);
      GroupRendered(turns, pending, ordinal, -1);
      GroupNames(t, r.results);
      OthersName(rest, [], ordinal + 1, keepFrom);
      NamesConcat([BuildAssistant(t)] + ToolMessages(t.calls, r.results, true), [BuildAssistant(t)] + ToolMessages(t.calls, r.results, false),
                  Others(rest, [], ordinal + 1, keepFrom), Others(rest, [], ordinal + 1, -1));
    } else {
      assert !turns[0].ToolResultsTurn?;
      var first := Rendered(turns[0], pending, ordinal < keepFrom);
      PairedDrop(turns, 1);
      NoToolsName(first);
      OthersName(turns[1..], Waiting(turns[0], pending), Ordinal(turns[0], ordinal), keepFrom);
      NamesConcat(first, first, Others(turns[1..], Waiting(turns[0], pending), Ordinal(turns[0], ordinal), keepFrom),
                  Others(turns[1..], Waiting(turns[0], pending), Ordinal(turns[0], ordinal), -1));
    }
  }

  lemma CountTwo(turns: seq<Turn>)
    requires Paired(turns) && |turns| > 1 && turns[1].ToolResultsTurn?
    ensures CountTools(turns) == 1 + CountTools(turns[2..])
  {
    assert turns[1..][1..] == turns[2..] && turns[1..][0] == turns[1];
  }

  /** Under retention, from any history the loop can build, each elided result names its call and its own size. */
  lemma StubsNameTheirCalls(a: seq<Turn>, b: seq<Turn>, k: int, p: nat)
    requires Paired(a + b) && k > 0 && CountTools(b) == k
    requires p < |Systems(a + b)| + |Others(a, [], 0, -1)| && p < |Converted(a + b, k)| && Converted(a + b, k)[p].ToolMessage?
    ensures NamesItsCall(Converted(a + b, k), Converted(a + b, 0), p)
  {
    hide Others;
    hide Systems;
    hide CountTools;
    hide NamesItsCall;
    hide AllStubs;
    hide Paired;
    hide StubOf;
    CutParts(a, b, k);
    PairedTake(a, b);
    SystemsOnly(a + b);
    var turns := a + b;
    var keep := KeepFrom(turns, k);
    var sys, head, plain := Systems(turns), Others(a, [], 0, keep), Others(a, [], 0, -1);
    var tail := Others(b, PendingAfter(a, []), CountTools(a), keep);
    if a == [] {
      NothingRendered(keep);
      NothingRendered(-1);
      NoToolsName([]);
    } else {
      OthersName(a, [], 0, keep);
    }
    NoToolsName(sys);
    NamesConcat(sys, sys, head, plain);
    NamedInFront(sys, head, plain, tail, p);
  }

  lemma NamedInFront(sys: seq<Message>, head: seq<Message>, plain: seq<Message>, tail: seq<Message>, p: nat)
    requires AllName(sys + head, sys + plain) && p < |sys + head| && (sys + head)[p].ToolMessage?
    ensures NamesItsCall(sys + (head + tail), sys + (plain + tail), p)
  {
    hide NamesItsCall;
    assert sys + (head + tail) == (sys + head) + tail && sys + (plain + tail) == (sys + plain) + tail;
    NamesAppended(sys + head, sys + plain, tail, tail, p);
  }

  lemma PairedTake(a: seq<Turn>, b: seq<Turn>)
    requires Paired(a + b)
    ensures Paired(a)
  {
    assert forall i :: 0 <= i < |a| ==> (a + b)[i] == a[i];
  }

  lemma ShapesConcat(sys: seq<Message>, a: seq<Message>, b: seq<Message>)
    requires SameShapes(sys, sys) && SameShapes(a, b)
    ensures SameShapes(sys + a, sys + b)
  {
    hide SameShape;
    forall p | 0 <= p < |sys + a| ensures SameShape((sys + a)[p], (sys + b)[p]) {
      if p < |sys| { assert SameShape(sys[p], sys[p]); } else { assert SameShape(a[p - |sys|], b[p - |sys|]); }
    }
  }

  lemma CutAt(sys: seq<Message>, head: seq<Message>, plain: seq<Message>, tail: seq<Message>)
    requires |head| == |plain|
    ensures var x, y := sys + (head + tail), sys + (plain + tail);
      var cut := |sys| + |plain|;
      cut <= |x| && x[cut..] == tail && y[cut..] == tail && x[..cut] == sys + head && y[..cut] == sys + plain
  {
  }

  lemma NothingCounted()
    ensures CountTools([]) == 0
  {
  }

  lemma NothingRendered(keepFrom: int)
    ensures Others([], [], 0, keepFrom) == []
  {
  }

  lemma SystemsAreStubs(m: seq<Message>)
    requires forall p :: 0 <= p < |m| ==> m[p].SystemMessage?
    ensures AllStubs(m, m)
  {
  }

  lemma SystemsAlike(m: seq<Message>)
    requires forall p :: 0 <= p < |m| ==> m[p].SystemMessage?
    ensures SameShapes(m, m)
  {
  }
}
