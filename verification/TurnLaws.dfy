/**
 * What a turn computes: the verdict on an execution, what reaches the context, where an exit, a completed or
 * a skipped node goes next. Every law is in terms of the graph, the state and what the world contributed.
 */
module TurnLaws {
  import opened Prelude
  import opened Outcomes
  import opened Graphs
  import opened EdgeSelection
  import opened NodeFiles
  import opened Retry
  import opened Checkpoints
  import opened EngineModel
  import opened ConditionMeaning
  import opened SelectionLaws
  import Conditions
  import Resume
  import FanIn
  import SkipKills

  // ---------------------------------------------------------------------------
  // The verdict on an execution
  // ---------------------------------------------------------------------------

  /** The artifact the node must write, if any, is there. */
  predicate Fulfilled(n: Node, inp: Input) {
    !n.mustWrite || Delivered(inp.artifact, inp.start)
  }

  predicate Claims(o: Outcome) {
    o.status == Success || o.status == PartialSuccess
  }

  /** A failure the engine makes up: nothing of the handler's verdict is left in it. */
  predicate Forced(o: Outcome) {
    o.status == Fail && !o.isExplicit && o.preferredLabel == None && o.suggestedNextIds == None && o.contextUpdates == None
  }

  /**
   * What is recorded when the ladder finishes with `o`: `o` itself, but for a SKIPPED of an auto-status node, which
   * becomes a plain SUCCESS, and for claims without their artifact, which become failures. Nothing else is promoted.
   */
  lemma VerdictExactly(n: Node, w: LadderWorld, inp: Input, o: Outcome)
    requires inp.execution == RanLadder(w) && Ladder(n, w).end == Finished(o)
    ensures Verdict(n, inp).Some?
    ensures var v := Verdict(n, inp).value;
      var promoted := n.autoStatus && o.status == Skipped;
      && (Claims(v) && !Claims(o) <==> promoted && Fulfilled(n, inp))
      && (o.status == Fail || (o.status == Skipped && !n.autoStatus) ==> v == o)
      && (Claims(o) && Fulfilled(n, inp) ==> v == o)
      && ((Claims(o) || promoted) && !Fulfilled(n, inp) ==> Forced(v))
      && (promoted && Fulfilled(n, inp) ==>
            v == o.(status := Success, notes := Some(AutoStatusPromotion), isExplicit := false))
      && o.status != Retry
  {
    hide Ladder;
    hide Delivered;
    LadderTrace(n, w);
  }

  /** A node that runs out of time fails, or is accepted in part where the graph allows it and its artifact is there. */
  lemma TimeoutVerdict(n: Node, inp: Input)
    requires inp.execution == NodeTimeout
    ensures Verdict(n, inp).Some?
    ensures var v := Verdict(n, inp).value;
      v.status == (if n.allowPartial && Fulfilled(n, inp) then PartialSuccess else Fail) && !v.isExplicit
  {
    hide Delivered;
  }

  // ---------------------------------------------------------------------------
  // Ends inside a turn
  // ---------------------------------------------------------------------------

  /** Past the bound, out of time or cancelled, in this order: the turn ends in a failure that says so before it has looked at the node. */
  lemma TurnStops(g: Graph, s: State, inp: Input)
    requires s.node in g.nodes
    ensures s.steps + 1 > 50 * |g.nodes| || inp.overBudget || inp.cancelledBefore ==>
      var t := Iterate(g, s, inp);
      && t.state == s.(steps := s.steps + 1) && t.events == []
      && t.result.Some? && t.result.value.status == Fail && !t.result.value.isExplicit
      && if s.steps + 1 > 50 * |g.nodes| then t.result.value.failureReason == Some(StepsExceeded(50 * |g.nodes|))
         else t.result.value.notes == Some(if inp.overBudget then DurationExceeded else CancelledByUser)
  {
    hide Execute;
    hide Route;
    hide FailedRefs;
  }

  /** An execution cut short by the pipeline's budget, by cancellation or by an unresolvable child graph records and saves nothing. */
  lemma ExecutionCut(g: Graph, s: State, inp: Input)
    requires s.node in g.nodes
    requires inp.execution.FuseTimeout? || Verdict(g.nodes[s.node], inp).None? || inp.cancelledAfter
    ensures var h := Execute(g, s, inp);
      && h.Halt? && h.outcome.status == Fail && !h.outcome.isExplicit && h.state.completed == s.completed
      && h.state.failed == s.failed && h.state.node == s.node
      && |h.events| == 1 && h.events[0].Ran? && h.events[0].node == s.node
      && (inp.execution.FuseTimeout? ==> h.outcome.notes == Some(DurationExceeded))
      && (inp.execution.RanLadder? && Ladder(g.nodes[s.node], inp.execution.world).end.Faulted? ==>
            h.outcome.failureReason == Some(Plain(Ladder(g.nodes[s.node], inp.execution.world).end.text)) &&
            h.state.outcomes == Assign(s.outcomes, s.node, h.outcome))
      && (!inp.execution.FuseTimeout? && Verdict(g.nodes[s.node], inp).Some? ==> h.outcome.notes == Some(CancelledByUser))
  {
    hide CheckMustWrite;
    hide Ladder;
    hide Assign;
    hide ShownContext;
    hide Visit;
  }

  // ---------------------------------------------------------------------------
  // What reaches the context
  // ---------------------------------------------------------------------------

  predicate Same(a: Context, b: Context, k: Key) {
    (k in a <==> k in b) && (k in a && k in b ==> a[k] == b[k])
  }

  /** Key by key, what a recorded completion leaves in the context. */
  lemma CompletionReachesContext(g: Graph, s: State, inp: Input, k: Key)
    requires s.node in g.nodes
    ensures var h := Work(g, s, inp);
      h.Go? && h.phase.CompletedNode? && h.events != [] ==>
        var o, after := h.phase.outcome, h.state.ctx;
        && "outcome" in after && after["outcome"].Text? && StatusWord(o.status, after["outcome"].text)
        && (Truthy(o.preferredLabel) ==> "preferred_label" in after && after["preferred_label"] == Text(o.preferredLabel.value))
        && (k != "outcome" && (k == "preferred_label" ==> !Truthy(o.preferredLabel)) ==>
              if k in o.contextUpdates.Or(map[]) then k in after && after[k] == o.contextUpdates.value[k]
              else if k == CapKey then k !in after
              else Same(after, s.ctx, k))
  {
    hide Verdict;
    hide Snapshot;
    hide Assign;
    hide Populate;
    hide FaultText;
    hide FailedRefs;
    hide SkipOutcome;
    hide SkipRecorded;
    hide Visit;
    assert "outcome"[0] != "preferred_label"[0];
  }

  // ---------------------------------------------------------------------------
  // Leaving an exit
  // ---------------------------------------------------------------------------

  /** A goal gate that is recorded without an asserted success. */
  predicate Unmet(g: Graph, e: (NodeId, Outcome)) {
    e.0 in g.nodes && g.nodes[e.0].goalGate && !(Claims(e.1) && e.1.isExplicit)
  }

  predicate Given(t: Option<NodeId>, id: NodeId) {
    t == Some(id) && id != ""
  }

  predicate NotGiven(t: Option<NodeId>) {
    t == None || t == Some("")
  }

  /** Where a gate node is retried from: its own target, else its own fallback, else the graph's, else the graph's fallback. */
  predicate RetriedFrom(g: Graph, n: Node, id: NodeId) {
    || Given(n.retryTarget, id)
    || (NotGiven(n.retryTarget) && Given(n.fallbackRetryTarget, id))
    || (NotGiven(n.retryTarget) && NotGiven(n.fallbackRetryTarget) && Given(g.retryTarget, id))
    || (NotGiven(n.retryTarget) && NotGiven(n.fallbackRetryTarget) && NotGiven(g.retryTarget) && Given(g.fallbackRetryTarget, id))
  }

  /** Going back to `id` with nothing of the attempt left. */
  function BackTo(s: State, id: NodeId): State {
    s.(node := id, completed := [], outcomes := [], failed := map[])
  }

  lemma {:induction false} UnsatisfiedIs(g: Graph, outcomes: Assoc<NodeId, Outcome>)
    ensures forall id :: id in Unsatisfied(g, outcomes) <==> exists e :: e in outcomes && Unmet(g, e) && e.0 == id
  {
    if outcomes != [] {
      UnsatisfiedIs(g, outcomes[1..]);
      forall id ensures id in Unsatisfied(g, outcomes) <==> exists e :: e in outcomes && Unmet(g, e) && e.0 == id {
        assert forall e :: e in outcomes <==> e == outcomes[0] || e in outcomes[1..];
      }
    }
  }

  lemma {:induction false} FirstUnsatisfied(g: Graph, outcomes: Assoc<NodeId, Outcome>, i: nat)
    requires i < |outcomes| && Unmet(g, outcomes[i]) && forall j :: 0 <= j < i ==> !Unmet(g, outcomes[j])
    ensures Unsatisfied(g, outcomes) != [] && Unsatisfied(g, outcomes)[0] == outcomes[i].0
  {
    if i > 0 {
      assert !Unmet(g, outcomes[0]);
      forall j | 0 <= j < i - 1 ensures !Unmet(g, outcomes[1..][j]) { assert outcomes[1..][j] == outcomes[j + 1]; }
      FirstUnsatisfied(g, outcomes[1..], i - 1);
    }
  }

  lemma {:induction false} NoneUnsatisfied(g: Graph, outcomes: Assoc<NodeId, Outcome>)
    requires forall e :: e in outcomes ==> !Unmet(g, e)
    ensures Unsatisfied(g, outcomes) == []
  {
    if outcomes != [] {
      assert outcomes[0] in outcomes;
      NoneUnsatisfied(g, outcomes[1..]);
    }
  }

  lemma TargetIs(g: Graph, n: Node, id: NodeId)
    ensures RetriedFrom(g, n, id) <==> GateRetryTarget(g, n) == Some(id) && id != ""
  {
  }

  /** The failure that ends a run over its unmet gates. */
  ghost predicate NamesUnmet(g: Graph, outcomes: Assoc<NodeId, Outcome>, o: Outcome) {
    && o.status == Fail && !o.isExplicit && o.failureReason.Some? && o.failureReason.value.UnsatisfiedGates?
    && forall id :: id in o.failureReason.value.nodes <==> exists e :: e in outcomes && Unmet(g, e) && e.0 == id
  }

  /**
   * An exit with an unmet gate, the first of them at place `i`: the walk goes back to where that gate is retried from,
   * forgets the attempt and spends one retry, exactly when that place is in the graph and the budget is below 50;
   * otherwise the run ends in a failure that names the unmet gates.
   */
  lemma UnmetGateRetries(g: Graph, s: State, i: nat)
    requires i < |s.outcomes| && Unmet(g, s.outcomes[i]) && forall j :: 0 <= j < i ==> !Unmet(g, s.outcomes[j])
    ensures var n, t := g.nodes[s.outcomes[i].0], RouteExit(g, s);
      && (forall id :: RetriedFrom(g, n, id) && id in g.nodes && s.gateRetries < 50 ==>
            t == Turn(BackTo(s, id).(gateRetries := s.gateRetries + 1), None, [Cleared]))
      && ((forall id :: RetriedFrom(g, n, id) ==> id !in g.nodes) || s.gateRetries >= 50 ==>
            t.state == s && t.events == [] && t.result.Some? && NamesUnmet(g, s.outcomes, t.result.value))
  {
    UnsatisfiedIs(g, s.outcomes);
    FirstUnsatisfied(g, s.outcomes, i);
    var n := g.nodes[s.outcomes[i].0];
    forall id ensures RetriedFrom(g, n, id) <==> GateRetryTarget(g, n) == Some(id) && id != "" { TargetIs(g, n, id); }
    hide Unsatisfied;
    hide RetriedFrom;
    hide GateRetryTarget;
    hide Unmet;
    UnmetVerdict(g, s, n);
    var gate := CheckGoalGates(g, s);
    hide CheckGoalGates;
  }

  lemma UnmetVerdict(g: Graph, s: State, n: Node)
    requires Unsatisfied(g, s.outcomes) != [] && Unsatisfied(g, s.outcomes)[0] in g.nodes && n == g.nodes[Unsatisfied(g, s.outcomes)[0]]
    ensures var gate, target := CheckGoalGates(g, s), GateRetryTarget(g, n);
      && gate.status == Fail && !gate.isExplicit && gate.failureReason == Some(UnsatisfiedGates(Unsatisfied(g, s.outcomes)))
      && (Truthy(target) && target.value in g.nodes ==> gate.suggestedNextIds == Some([StrId(target.value)]))
      && (!(Truthy(target) && target.value in g.nodes) ==> gate.suggestedNextIds == None)
  {
    hide Unsatisfied;
    hide GateRetryTarget;
  }

  /** The outcome recorded for the node that completed last. */
  function LastOutcome(s: State): Option<Outcome> {
    if s.completed == [] then None else Lookup(s.outcomes, s.completed[|s.completed| - 1])
  }

  /** The place a failed last outcome suggests first. */
  predicate Suggested(g: Graph, o: Outcome, id: NodeId) {
    && o.status == Fail && o.suggestedNextIds.Some? && o.suggestedNextIds.value != []
    && Names(o.suggestedNextIds.value[0], id) && id in g.nodes
  }

  /**
   * An exit with all gates met: the run ends with what its last node yielded, or a plain SUCCESS where nothing is
   * recorded; but a last node that failed and suggested a place in the graph is jumped back from like an unmet gate.
   */
  lemma MetGatesEnd(g: Graph, s: State)
    requires forall e :: e in s.outcomes ==> !Unmet(g, e)
    ensures var t, last := RouteExit(g, s), LastOutcome(s);
      && (last == None ==> t == Turn(s, Some(Synthetic(Success, Some(PipelineCompleted), None)), []))
      && (forall id :: last.Some? && Suggested(g, last.value, id) && s.gateRetries < 50 ==>
            t == Turn(BackTo(s, id).(gateRetries := s.gateRetries + 1), None, [Cleared]))
      && (last.Some? && ((forall id :: !Suggested(g, last.value, id)) || s.gateRetries >= 50) ==> t == Turn(s, last, []))
  {
    NoneUnsatisfied(g, s.outcomes);
    hide Unsatisfied;
    hide Unmet;
    hide Lookup;
    hide Names;
    hide CoerceSuggestedId;
    var last := LastOutcome(s);
    if last.Some? && last.value.Suggestions() != [] {
      var raw := last.value.Suggestions()[0];
      forall id ensures Names(raw, id) <==> CoerceSuggestedId(raw) == Some(id) { NamesExactly(raw, id); }
      var id := CoerceSuggestedId(raw);
      if id.Some? && last.value.status == Fail && id.value in g.nodes { assert Suggested(g, last.value, id.value); }
    }
  }

  // ---------------------------------------------------------------------------
  // Leaving a completed node
  // ---------------------------------------------------------------------------

  /** Where a node without an edge to take is retried from: its own target, else its own fallback, never the graph's. */
  predicate RetriedItself(g: Graph, n: Node, id: NodeId) {
    (Given(n.retryTarget, id) || (NotGiven(n.retryTarget) && Given(n.fallbackRetryTarget, id))) && id in g.nodes
  }

  lemma OwnTargetIs(g: Graph, n: Node, id: NodeId)
    ensures RetriedItself(g, n, id) <==> FailureRetryTarget(g, n) == Some(id)
  {
  }

  /** A failure that ends the run, for the reason that was there before it if there was one; its own is then a note. */
  predicate EndsFor(o: Outcome, upstream: Option<Message>, reason: Message) {
    && o.status == Fail && !o.isExplicit
    && (MessageTruthy(upstream) ==> o.failureReason == upstream && o.notes == Some(reason))
    && (!MessageTruthy(upstream) ==> o.failureReason == Some(reason) && o.notes == None)
  }

  /** A fan-out goes on where its branches meet best; without such a place the run fails. */
  lemma FanOutMeets(g: Graph, s: State, o: Outcome, prefer: NodeId)
    requires s.node in g.nodes && g.nodes[s.node].shape == "component" && |Outgoing(g, s.node)| > 1
    ensures var t := RouteCompleted(g, s, o, prefer);
      && t.events == []
      && (t.result == None ==> t.state == s.(node := t.state.node) && Resume.IsMeeting(g, s.node, t.state.node))
      && (t.result.Some? <==> forall v :: !FanIn.CommonDescendant(g.edges, Targets(Outgoing(g, s.node)), v))
      && (t.result.Some? ==> t.state == s && EndsFor(t.result.value, None, NoConvergence(s.node)))
  {
    hide Targets;
    hide Outgoing;
    hide FanIn.FanInNode;
    hide FanIn.IsFanIn;
    hide FanIn.CommonDescendant;
    Resume.MeetingIsBest(g, s.node, prefer);
  }

  /** Following an edge moves the walk and changes nothing else, unless the edge restarts the loop. */
  lemma EdgeIsFollowed(g: Graph, s: State, o: Outcome, prefer: NodeId, e: Edge)
    requires s.node in g.nodes && !(g.nodes[s.node].shape == "component" && |Outgoing(g, s.node)| > 1)
    requires SelectEdge(g, s.node, o, s.ctx) == Some(e)
    ensures var t := RouteCompleted(g, s, o, prefer);
      && t.result == None
      && (!e.loopRestart ==> t == Turn(s.(node := e.target), None, []))
      && (e.loopRestart ==> t.events == [Cleared] && RestartsAt(s, t.state, e.target))
  {
    hide SelectEdge;
    hide Outgoing;
    hide Decimal;
    hide RestartsAt;
    if e.loopRestart { RestartIs(s, e); }
  }

  /** A restart: the next iteration, counted in the context, with the attempt, both budgets and the routing label gone. */
  ghost predicate RestartsAt(s: State, t: State, id: NodeId) {
    && t == BackTo(s, id).(iteration := s.iteration + 1, gateRetries := 0, routeRetries := 0, ctx := t.ctx)
    && (forall k :: k !in {"preferred_label", "iteration", "loop_count"} ==> Same(t.ctx, s.ctx, k))
    && "preferred_label" in t.ctx && t.ctx["preferred_label"] == Null
    && "iteration" in t.ctx && t.ctx["iteration"].Text? && Numeral(t.ctx["iteration"].text, s.iteration + 1)
    && "loop_count" in t.ctx && t.ctx["loop_count"] == t.ctx["iteration"]
  }

  lemma RestartIs(s: State, e: Edge)
    requires e.loopRestart
    ensures RestartsAt(s, FollowEdge(s, e).state, e.target) && FollowEdge(s, e).result == None && FollowEdge(s, e).events == [Cleared]
  {
    hide Decimal;
    hide Numeral;
    assert |"preferred_label"| == 15 && |"iteration"| == 9 && |"loop_count"| == 10;
    NumeralExactly(Decimal(s.iteration + 1), s.iteration + 1);
  }

  /** Where every edge is refused, the node's own retry target takes over, budget permitting; else the run ends. */
  lemma NoEdgeRetries(g: Graph, s: State, o: Outcome, prefer: NodeId)
    requires s.node in g.nodes && !(g.nodes[s.node].shape == "component" && |Outgoing(g, s.node)| > 1)
    requires forall e :: e in g.edges && e.source == s.node ==> e.condition != "" && !Met(e, s.node, o, s.ctx)
    ensures var n, t := g.nodes[s.node], RouteCompleted(g, s, o, prefer);
      && (forall id :: RetriedItself(g, n, id) && s.routeRetries < 50 ==>
            t == Turn(BackTo(s, id).(routeRetries := s.routeRetries + 1), None, [Cleared]))
      && ((forall id :: !RetriedItself(g, n, id)) || s.routeRetries >= 50 ==>
            t.state == s && t.events == [] && t.result.Some? && EndsFor(t.result.value, o.failureReason, NoMatchingEdge(s.node)))
  {
    hide Conditions.Evaluate;
    NoEdgeExactly(g, s.node, o, s.ctx);
    forall e | e in g.edges && e.source == s.node ensures Refused(e, Judge(o, s.ctx)) { assert !Met(e, s.node, o, s.ctx); }
    hide SelectEdge;
    hide Outgoing;
    hide Judge;
    var n := g.nodes[s.node];
    forall id ensures RetriedItself(g, n, id) <==> FailureRetryTarget(g, n) == Some(id) { OwnTargetIs(g, n, id); }
    hide FailureRetryTarget;
    hide RetriedItself;
  }

  // ---------------------------------------------------------------------------
  // Leaving a skipped node
  // ---------------------------------------------------------------------------

  /** As if it had failed without a word: what such an outcome carries. */
  predicate PlainFailure(f: Outcome, skip: Outcome) {
    && f.status == Fail && f.preferredLabel == None && f.suggestedNextIds == None && f.contextUpdates == None
    && f.failureReason == skip.failureReason && f.notes == skip.notes && !f.isExplicit && f.attemptCount == None
    && f.payload == NoPayload
  }

  /** A skipped node is left by the edge a plain failure would take, and no edge clears anything. */
  lemma SkipIsLeft(g: Graph, s: State, skip: Outcome, f: Outcome)
    requires s.node in g.nodes && PlainFailure(f, skip)
    ensures var n, t, e := g.nodes[s.node], RouteSkipped(g, s, skip), SelectEdge(g, s.node, f, s.ctx);
      && t.events == []
      && (e.Some? ==> t == Turn(s.(node := e.value.target), None, []))
      && (forall id :: e == None && RetriedItself(g, n, id) && s.routeRetries < 50 ==>
            t == Turn(s.(routeRetries := s.routeRetries + 1, node := id), None, []))
      && (e == None && ((forall id :: !RetriedItself(g, n, id)) || s.routeRetries >= 50) ==>
            t.state == s && t.result.Some? && EndsFor(t.result.value, skip.failureReason, NoEdgeFromSkipped(s.node)))
  {
    assert f == SkipRouting(skip);
    SkipKills.SkipFallbackIsDead(g, s, skip);
    hide SelectEdge;
    hide SkipEdge;
    var n := g.nodes[s.node];
    forall id ensures RetriedItself(g, n, id) <==> FailureRetryTarget(g, n) == Some(id) { OwnTargetIs(g, n, id); }
    hide FailureRetryTarget;
    hide RetriedItself;
  }

  const WhenSkipped := "outcome=skipped"

  /** `outcome=skipped` asks whether the outcome reads as skipped. */
  lemma WhenSkippedMeans(o: Outcome, ctx: Context)
    ensures Conditions.Evaluate(WhenSkipped, o, ctx) <==> StandsFor("outcome", o, ctx, "skipped")
  {
    hide StandsFor;
    hide Conditions.Evaluate;
    var key, value := "outcome", "skipped";
    var text := ("" + key + "") + "=" + ("" + value + "");
    assert text == WhenSkipped;
    assert forall i :: 0 <= i < |key| ==> key[i] != '=' && key[i] != '&' && key[i] != '!';
    assert forall i :: 0 <= i < |value| ==> value[i] != '=' && value[i] != '&' && value[i] != '!';
    assert forall i :: 0 <= i < |text| ==> text[i] != '&' && text[i] != '!';
    EqualsMeans("", key, "", "", value, "", o, ctx);
  }

  /** Live, an edge that asks for a skip is never taken after one: the skip is routed as a failure. */
  lemma SkippedIsNeverMet(g: Graph, s: State, skip: Outcome, e: Edge)
    requires e.condition == WhenSkipped
    ensures SkipEdge(g, s, skip) != Some(e)
  {
    hide SelectEdge;
    hide SkipEdge;
    var f := SkipRouting(skip);
    SkipKills.SkipFallbackIsDead(g, s, skip);
    SelectedEdgeIsUsable(g, s.node, f, s.ctx);
    WhenSkippedMeans(f, s.ctx);
    hide Conditions.Evaluate;
    assert "skipped"[0] != "fail"[0];
  }

  // ---------------------------------------------------------------------------
  // A failed last node spends gate retries
  // ---------------------------------------------------------------------------

  /** A node that leads to the exit, and no goal gate anywhere. */
  const Ungated: Graph :=
    Graph(map["a" := Node("a", "box", "", false, false, false, false, 0, None, None, false),
              "end" := Node("end", "Msquare", "", false, false, false, false, 0, None, None, false)],
          [Edge("a", "end", "", "", 0, false)], None, None, map[], map[], "digraph", "f")

  /** A failure that suggests its own node. */
  const AgainPlease: Outcome := Outcome(Fail, None, Some([StrId("a")]), None, None, None, true, None, NoPayload)

  const FailsSo := Input(false, false, 0,
    RanLadder(LadderWorld(0, (i: nat) => Attempt(0, Returned(AgainPlease), NoFile, Absent), Absent)), false, Absent, "")

  lemma FailsSoVerdict()
    ensures Verdict(Ungated.nodes["a"], FailsSo) == Some(AgainPlease.(attemptCount := Some(1)))
  {
  }

  lemma UngatedWork(s: State)
    requires s == Fresh("a", map[])
    ensures var h := Work(Ungated, s, FailsSo);
      && h.Go? && h.phase == CompletedNode(AgainPlease.(attemptCount := Some(1))) && h.state.node == "a" && h.state.steps == 1
      && h.state.outcomes == [("a", AgainPlease.(attemptCount := Some(1)))] && h.state.completed == ["a"]
      && h.state.gateRetries == 0 && h.state.pending == None
  {
    hide Verdict;
    hide Snapshot;
    hide Populate;
    hide AfterUpdates;
    hide ShownContext;
    var g := Ungated;
    assert !g.nodes["a"].IsExit() by { assert |Lower("a")| == 1; }
    assert FailedRefs(g, s.(steps := 1)) == {};
    hide FailedRefs;
    FailsSoVerdict();
    assert |g.nodes| == 2;
  }

  /** On to the exit: its only edge. */
  lemma UngatedRoute(s: State, o: Outcome)
    requires s.node == "a"
    ensures Route(Ungated, s, CompletedNode(o), "") == Turn(s.(node := "end"), None, [])
  {
    var g := Ungated;
    var e := g.edges[0];
    assert e in g.edges && e.source == "a";
    hide SelectEdge;
    NoEdgeExactly(g, "a", o, s.ctx);
    SelectedEdgeIsUsable(g, "a", o, s.ctx);
    hide Judge;
    EdgeIsFollowed(g, s, o, "", e);
  }

  lemma UngatedExit(s: State)
    requires s.node == "end" && s.steps == 1 && s.completed == ["a"] && s.gateRetries == 0
    requires s.outcomes == [("a", AgainPlease.(attemptCount := Some(1)))]
    ensures var t := Iterate(Ungated, s, FailsSo);
      t.result == None && t.state.node == "a" && t.state.gateRetries == 1 && t.state.outcomes == []
  {
    hide Execute;
    hide Snapshot;
    hide FailedRefs;
    var g := Ungated;
    var s1 := s.(steps := 2);
    assert |g.nodes| == 2 && g.nodes["end"].IsExit();
    assert Work(g, s, FailsSo) == Go(s1, AtExit, [Saved(Snapshot(g, s1))]);
    hide Work;
    MetGatesEnd(g, s1);
    assert Suggested(g, LastOutcome(s1).value, "a");
    hide RouteExit;
  }

  /** Without any goal gate, a run whose last node fails and suggests that node jumps back to it on a gate retry. */
  lemma FailureSpendsGateRetries()
    ensures WellFormed(Ungated) && forall id :: id in Ungated.nodes ==> !Ungated.nodes[id].goalGate
    ensures var t := Walk(Ungated, Fresh("a", map[]), [FailsSo, FailsSo]);
      t.result == None && t.state.node == "a" && t.state.gateRetries == 1
  {
    hide Work;
    hide Route;
    var g, s0, inputs := Ungated, Fresh("a", map[]), [FailsSo, FailsSo];
    UngatedWork(s0);
    var h := Work(g, s0, FailsSo);
    UngatedRoute(h.state, h.phase.outcome);
    var t1 := Iterate(g, s0, FailsSo);
    UngatedExit(t1.state);
    hide Iterate;
    var t2 := Iterate(g, t1.state, FailsSo);
    assert inputs[1..] == [FailsSo] && [FailsSo][1..] == [];
    assert Walk(g, t2.state, []) == Turn(t2.state, None, []);
  }
}
