/**
 * The graph walk of engine.py as a state machine: `Iterate` is one turn of the `while True`
 * loop of `_run_loop`, `Walk` a run of turns. What the world contributes to a turn (handler
 * answers, files, clocks, cancellation) is an `Input`; a run that uses up its inputs was killed.
 */
module EngineModel {
  import opened Prelude
  import opened Outcomes
  import opened Graphs
  import opened EdgeSelection
  import opened NodeFiles
  import opened Retry
  import opened FanIn
  import opened Checkpoints

  const MAX_RETRIES: nat := 50

  const CapKey: Key := "resume.fidelity_cap"

  // ---------------------------------------------------------------------------
  // What the world contributes
  // ---------------------------------------------------------------------------

  datatype Execution =
    | RanLadder(world: LadderWorld)  // the retry ladder came to its own end
    | NodeTimeout                    // the node's own timeout expired first
    | FuseTimeout                    // the pipeline's duration budget expired first

  datatype Input = Input(
    overBudget: bool,        // the pipeline's duration is already exceeded at the top of the loop
    cancelledBefore: bool,   // cancellation seen at the top of the loop
    start: int,              // wall clock just before the node executes
    execution: Execution,
    cancelledAfter: bool,    // cancellation seen after the node executed
    artifact: Artifact,      // the node's artifact at the final check
    prefer: NodeId)          // how set iteration order breaks a fan-in tie

  /** A turn in which nothing interferes; its execution is never looked at. */
  function Quiet(inp: Input): Input {
    inp.(overBudget := false, cancelledBefore := false)
  }

  // ---------------------------------------------------------------------------
  // State
  // ---------------------------------------------------------------------------

  datatype State = State(
    node: NodeId,
    ctx: Context,
    completed: seq<NodeId>,
    outcomes: Assoc<NodeId, Outcome>,
    failed: map<Key, NodeId>,
    iteration: nat,
    counts: map<NodeId, nat>,
    gateRetries: nat,
    routeRetries: nat,
    steps: nat,
    pending: Option<Outcome>,  // the recorded outcome a resumed walk routes with, once
    capArmed: bool)            // the one-shot fidelity cap of a resumed walk

  datatype Event =
    | Ran(node: NodeId, visit: nat, shown: Context, inp: Input)  // what the execution was to meet
    | Recorded(node: NodeId, outcome: Outcome, ran: bool)
    | Saved(checkpoint: Checkpoint)
    | Cleared

  function MaxSteps(g: Graph): nat {
    |g.nodes| * MAX_RETRIES
  }

  /** `_save_checkpoint`. */
  function Snapshot(g: Graph, s: State): Checkpoint {
    Checkpoint(s.node, s.completed, s.ctx, RetriesOf(s.outcomes), SCHEMA_VERSION, IN_FLIGHT, RecordsOf(s.outcomes),
               EngineCounters(s.iteration, s.counts, s.gateRetries, s.routeRetries, s.steps),
               GraphIdentity(g.fingerprint, g.dotSource))
  }

  /** `_populate_failed_outputs`: the first producer to fail a key keeps it. */
  function Populate(g: Graph, failed: map<Key, NodeId>, id: NodeId): map<Key, NodeId> {
    failed + map k | k in OutputsOf(g, id) && k !in failed :: id
  }

  /** Failed or skipped, as the resume derivation reads a record. */
  predicate Bad(o: Outcome) {
    o.status.Fail? || o.status.Skipped?
  }

  /** The table `resume` derives from the recorded outcomes, in their order. */
  function Derived(g: Graph, outcomes: Assoc<NodeId, Outcome>): map<Key, NodeId> {
    if outcomes == [] then map[]
    else
      var n := |outcomes| - 1;
      var before := Derived(g, outcomes[..n]);
      if Bad(outcomes[n].1) then Populate(g, before, outcomes[n].0) else before
  }

  /** `resume`, up to the call of the loop. */
  function Restore(g: Graph, c: Checkpoint): State
    requires ValidRecords(c.nodeOutcomes)
  {
    var outcomes := RestoreOutcomes(c.nodeOutcomes, c.nodeRetries);
    State(c.currentNode, c.context, c.completedNodes, outcomes, Derived(g, outcomes),
          c.counters.iterationCount, c.counters.executionCounts, c.counters.gateRetries, c.counters.routeRetries,
          c.counters.steps, Lookup(outcomes, c.currentNode), true)
  }

  /** A fresh run at its start node. */
  function Fresh(start: NodeId, ctx: Context): State {
    State(start, ctx, [], [], map[], 0, map[], 0, 0, 0, None, false)
  }

  function Clear(s: State): State {
    s.(completed := [], outcomes := [], failed := map[])
  }

  // ---------------------------------------------------------------------------
  // First half of a turn: up to and including the save
  // ---------------------------------------------------------------------------

  datatype Phase = AtExit | SkippedNode(outcome: Outcome) | CompletedNode(outcome: Outcome)

  datatype Half =
    | Halt(state: State, outcome: Outcome, events: seq<Event>)
    | Go(state: State, phase: Phase, events: seq<Event>)

  function Exceeded(g: Graph): Outcome {
    Synthetic(Fail, None, Some(StepsExceeded(MaxSteps(g))))
  }

  const OverBudgetOutcome: Outcome :=
    Synthetic(Fail, Some(DurationExceeded), Some(Plain("max_pipeline_duration_exceeded")))

  const CancelledOutcome: Outcome := Synthetic(Fail, Some(CancelledByUser), Some(Plain("cancelled")))

  /** The keys a node mentions that a failed or skipped node was to produce. */
  function FailedRefs(g: Graph, s: State): set<Key> {
    set k | k in RefsOf(g, s.node) && k in s.failed
  }

  function SkipOutcome(g: Graph, s: State): Outcome {
    Synthetic(Skipped, Some(RefusedInputs(s.node, FailedRefs(g, s))), Some(PredecessorFailed))
  }

  /** What executing a node yields before any override; `None` when no outcome is recorded as completed. */
  function RawOutcome(n: Node, inp: Input): Option<Outcome> {
    match inp.execution
    case RanLadder(world) =>
      var end := Ladder(n, world).end;
      if end.Finished? then Some(end.outcome) else None
    case NodeTimeout =>
      Some(Synthetic(if n.allowPartial then PartialSuccess else Fail, Some(NodeTimedOut(n.id)), Some(Plain("timeout"))))
    case FuseTimeout => None
  }

  /** `auto_status` promotion of a skip, which asserts nothing. */
  function Promote(n: Node, o: Outcome): Outcome {
    if n.autoStatus && o.status.Skipped? then
      o.(status := Success, notes := Some(AutoStatusPromotion), isExplicit := false)
    else o
  }

  /** The outcome recorded for an executed node: overrides first, the artifact contract last. */
  function Verdict(n: Node, inp: Input): Option<Outcome> {
    var raw := RawOutcome(n, inp);
    if raw.None? then None
    else
      var promoted := Promote(n, raw.value);
      Some(CheckMustWrite(n, promoted, inp.start, inp.artifact).Or(promoted))
  }

  /** The context a handler is shown: capped once after a resume. */
  function ShownContext(n: Node, s: State): Context {
    if s.capArmed && n.resolvesFull then s.ctx[CapKey := Text("summary:high")] else s.ctx
  }

  function Visit(s: State): nat {
    (if s.node in s.counts then s.counts[s.node] else 0) + 1
  }

  /** The state while the handler runs. */
  function Entered(n: Node, s: State): State {
    s.(counts := s.counts[s.node := Visit(s)], capArmed := false, ctx := ShownContext(n, s))
  }

  function AfterUpdates(ctx: Context, o: Outcome): Context {
    var updated := ctx + o.contextUpdates.Or(map[]);
    var withOutcome := updated["outcome" := Text(StatusText(o.status))];
    if Truthy(o.preferredLabel) then withOutcome["preferred_label" := Text(o.preferredLabel.value)] else withOutcome
  }

  /** The state once an executed node's outcome is recorded. */
  function Completed(g: Graph, s: State, o: Outcome): State {
    s.(completed := s.completed + [s.node],
       outcomes := Assign(s.outcomes, s.node, o),
       failed := if o.status.Fail? then Populate(g, s.failed, s.node) else s.failed,
       ctx := AfterUpdates(s.ctx - {CapKey}, o))
  }

  /** The state once an engine skip is recorded. */
  function SkipRecorded(g: Graph, s: State, o: Outcome): State {
    s.(completed := s.completed + [s.node],
       outcomes := Assign(s.outcomes, s.node, o),
       failed := Populate(g, s.failed, s.node))
  }

  function FaultText(n: Node, inp: Input): string {
    match inp.execution
    case RanLadder(world) =>
      var end := Ladder(n, world).end;
      if end.Faulted? then end.text else ""
    case _ => ""
  }

  function Execute(g: Graph, s: State, inp: Input): Half
    requires s.node in g.nodes
  {
    var n := g.nodes[s.node];
    var entered := Entered(n, s);
    var ran := [Ran(s.node, Visit(s), entered.ctx, inp)];
    var verdict := Verdict(n, inp);
    if inp.execution.FuseTimeout? then
      Halt(entered, OverBudgetOutcome, ran)
    else if verdict.None? then
      var fault := Synthetic(Fail, Some(Plain(FaultText(n, inp))), Some(Plain(FaultText(n, inp))));
      Halt(entered.(outcomes := Assign(s.outcomes, s.node, fault)), fault, ran)
    else if inp.cancelledAfter then
      Halt(entered.(ctx := entered.ctx - {CapKey}), CancelledOutcome, ran)
    else
      var done := Completed(g, entered, verdict.value);
      Go(done, CompletedNode(verdict.value), ran + [Recorded(s.node, verdict.value, true), Saved(Snapshot(g, done))])
  }

  /** What stops the walk at the top of the loop: the step bound, the duration budget, cancellation. */
  function Stopped(g: Graph, steps: nat, inp: Input): Option<Outcome> {
    if steps > MaxSteps(g) then Some(Exceeded(g))
    else if inp.overBudget then Some(OverBudgetOutcome)
    else if inp.cancelledBefore then Some(CancelledOutcome)
    else None
  }

  function Work(g: Graph, s0: State, inp: Input): Half
    requires s0.node in g.nodes
  {
    var s := s0.(steps := s0.steps + 1);
    var stopped := Stopped(g, s.steps, inp);
    if stopped.Some? then Halt(s, stopped.value, [])
    else if g.nodes[s.node].IsExit() then Go(s, AtExit, [Saved(Snapshot(g, s))])
    else if s.pending.Some? then Go(s.(pending := None), CompletedNode(s.pending.value), [])
    else if FailedRefs(g, s) != {} then
      var skip := SkipOutcome(g, s);
      var done := SkipRecorded(g, s, skip);
      Go(done, SkippedNode(skip), [Recorded(s.node, skip, false), Saved(Snapshot(g, done))])
    else Execute(g, s, inp)
  }

  // ---------------------------------------------------------------------------
  // Second half of a turn: gates and routing
  // ---------------------------------------------------------------------------

  datatype Turn = Turn(state: State, result: Option<Outcome>, events: seq<Event>)

  predicate IsGate(g: Graph, id: NodeId) {
    id in g.nodes && g.nodes[id].goalGate
  }

  predicate GateMet(o: Outcome) {
    o.IsSuccess() && o.isExplicit
  }

  function Unsatisfied(g: Graph, outcomes: Assoc<NodeId, Outcome>): seq<NodeId> {
    if outcomes == [] then []
    else if IsGate(g, outcomes[0].0) && !GateMet(outcomes[0].1) then
      [outcomes[0].0] + Unsatisfied(g, outcomes[1..])
    else Unsatisfied(g, outcomes[1..])
  }

  /** Node target, node fallback, graph target, graph fallback: the first that is set. */
  function GateRetryTarget(g: Graph, n: Node): Option<NodeId> {
    FirstTruthy(n.retryTarget, FirstTruthy(n.fallbackRetryTarget, FirstTruthy(g.retryTarget, g.fallbackRetryTarget)))
  }

  function CheckGoalGates(g: Graph, s: State): Outcome {
    var unsatisfied := Unsatisfied(g, s.outcomes);
    if unsatisfied == [] then
      var last := if s.completed == [] then None else Lookup(s.outcomes, s.completed[|s.completed| - 1]);
      if last.Some? then last.value else Synthetic(Success, Some(PipelineCompleted), None)
    else
      var target := if unsatisfied[0] in g.nodes then GateRetryTarget(g, g.nodes[unsatisfied[0]]) else None;
      var failure := Synthetic(Fail, None, Some(UnsatisfiedGates(unsatisfied)));
      if Truthy(target) && target.value in g.nodes then
        failure.(suggestedNextIds := Some([StrId(target.value)]))
      else failure
  }

  /** Where an exit with failing gates jumps back to, budget permitting. */
  function GateJump(g: Graph, s: State, gate: Outcome): Option<NodeId> {
    if gate.status.Fail? && gate.Suggestions() != [] && s.gateRetries < MAX_RETRIES then
      var id := CoerceSuggestedId(gate.Suggestions()[0]);
      if id.Some? && id.value in g.nodes then id else None
    else None
  }

  function RouteExit(g: Graph, s: State): Turn {
    var gate := CheckGoalGates(g, s);
    var jump := GateJump(g, s, gate);
    if jump.Some? then
      Turn(Clear(s).(gateRetries := s.gateRetries + 1, node := jump.value), None, [Cleared])
    else Turn(s, Some(gate), [])
  }

  /** A node's own retry targets; graph-level ones serve gates only. */
  function FailureRetryTarget(g: Graph, n: Node): Option<NodeId> {
    var target := FirstTruthy(n.retryTarget, n.fallbackRetryTarget);
    if Truthy(target) && target.value in g.nodes then target else None
  }

  /** `terminate_pipeline`. */
  function Terminate(upstream: Outcome, reason: Message): Outcome {
    if MessageTruthy(upstream.failureReason) then
      Synthetic(Fail, Some(reason), upstream.failureReason)
    else Synthetic(Fail, None, Some(reason))
  }

  function SkipRouting(skip: Outcome): Outcome {
    Synthetic(Fail, skip.notes, skip.failureReason)
  }

  function SkipEdge(g: Graph, s: State, skip: Outcome): Option<Edge> {
    var edge := SelectEdge(g, s.node, SkipRouting(skip), s.ctx);
    var plain := Unconditional(Outgoing(g, s.node));
    if edge.None? && plain != [] then Some(Best(plain)) else edge
  }

  function RouteSkipped(g: Graph, s: State, skip: Outcome): Turn
    requires s.node in g.nodes
  {
    var edge := SkipEdge(g, s, skip);
    if edge.Some? then Turn(s.(node := edge.value.target), None, [])
    else
      var retry := FailureRetryTarget(g, g.nodes[s.node]);
      if retry.Some? && s.routeRetries < MAX_RETRIES then
        Turn(s.(routeRetries := s.routeRetries + 1, node := retry.value), None, [])
      else Turn(s, Some(Terminate(SkipRouting(skip), NoEdgeFromSkipped(s.node))), [])
  }

  function Targets(edges: seq<Edge>): seq<NodeId> {
    seq(|edges|, i requires 0 <= i < |edges| => edges[i].target)
  }

  predicate FansOut(g: Graph, id: NodeId) {
    id in g.nodes && g.nodes[id].IsComponent() && |Outgoing(g, id)| > 1
  }

  function LoopRestarted(s: State): State {
    var i := s.iteration + 1;
    Clear(s).(iteration := i, gateRetries := 0, routeRetries := 0,
              ctx := s.ctx["preferred_label" := Null]["iteration" := Text(Decimal(i))]["loop_count" := Text(Decimal(i))])
  }

  function FollowEdge(s: State, e: Edge): Turn {
    if e.loopRestart then Turn(LoopRestarted(s).(node := e.target), None, [Cleared])
    else Turn(s.(node := e.target), None, [])
  }

  ghost function RouteCompleted(g: Graph, s: State, o: Outcome, prefer: NodeId): Turn
    requires s.node in g.nodes
  {
    if FansOut(g, s.node) then
      var meeting := FanInNode(g.edges, Targets(Outgoing(g, s.node)), prefer);
      if meeting.Some? then Turn(s.(node := meeting.value), None, [])
      else Turn(s, Some(Synthetic(Fail, None, Some(NoConvergence(s.node)))), [])
    else
      var edge := SelectEdge(g, s.node, o, s.ctx);
      if edge.Some? then FollowEdge(s, edge.value)
      else
        var retry := FailureRetryTarget(g, g.nodes[s.node]);
        if retry.Some? && s.routeRetries < MAX_RETRIES then
          Turn(Clear(s).(routeRetries := s.routeRetries + 1, node := retry.value), None, [Cleared])
        else Turn(s, Some(Terminate(o, NoMatchingEdge(s.node))), [])
  }

  ghost function Route(g: Graph, s: State, phase: Phase, prefer: NodeId): Turn
    requires s.node in g.nodes
  {
    match phase
    case AtExit => RouteExit(g, s)
    case SkippedNode(skip) => RouteSkipped(g, s, skip)
    case CompletedNode(o) => RouteCompleted(g, s, o, prefer)
  }

  // ---------------------------------------------------------------------------
  // Turns and runs
  // ---------------------------------------------------------------------------

  ghost function Iterate(g: Graph, s: State, inp: Input): Turn
    requires s.node in g.nodes
  {
    var half := Work(g, s, inp);
    if half.Halt? then Turn(half.state, Some(half.outcome), half.events)
    else
      var routed := Route(g, half.state, half.phase, inp.prefer);
      Turn(routed.state, routed.result, half.events + routed.events)
  }

  lemma FanInIsNode(g: Graph, id: NodeId, prefer: NodeId)
    requires WellFormed(g) && FansOut(g, id)
    ensures var m := FanInNode(g.edges, Targets(Outgoing(g, id)), prefer); m.Some? ==> m.value in g.nodes
  {
    var roots := Targets(Outgoing(g, id));
    var m := FanInNode(g.edges, roots, prefer);
    if m.Some? {
      assert IsChoice(g.edges, roots, prefer, m.value);
      assert CommonDescendant(g.edges, roots, m.value);
      assert roots[0] in roots;
      assert Reachable(g.edges, roots[0], m.value);
      var k: nat :| Reaches(g.edges, roots[0], m.value, k);
      if k > 0 {
        var c :| Reaches(g.edges, roots[0], c, k - 1) && HasEdge(g.edges, c, m.value);
      }
    }
  }

  /** Executing a node leaves position, budgets and iteration alone. */
  predicate SamePosition(s: State, t: State) {
    t.node == s.node && t.steps == s.steps && t.gateRetries == s.gateRetries && t.routeRetries == s.routeRetries &&
    t.iteration == s.iteration
  }

  lemma ExecuteFrame(g: Graph, s: State, inp: Input)
    requires s.node in g.nodes
    ensures var h := Execute(g, s, inp);
      SamePosition(s, h.state) && h.state.pending == s.pending && (h.Halt? ==> h.state.failed == s.failed)
  {
    hide Verdict;
    hide Snapshot;
    hide Assign;
    hide Populate;
    hide FaultText;
    hide AfterUpdates;
    hide ShownContext;
    hide Visit;
  }

  lemma SkipFrame(g: Graph, s: State, o: Outcome)
    ensures SamePosition(s, SkipRecorded(g, s, o))
  {
  }

  /** The first half only counts the step; budgets, node and iteration are for routing to change. */
  lemma WorkFrame(g: Graph, s: State, inp: Input)
    requires s.node in g.nodes
    ensures var h := Work(g, s, inp);
      && h.state.node == s.node && h.state.steps == s.steps + 1
      && h.state.gateRetries == s.gateRetries && h.state.routeRetries == s.routeRetries
      && h.state.iteration == s.iteration
      && (h.Go? ==> h.state.steps <= MaxSteps(g))
  {
    hide Execute;
    hide Snapshot;
    hide SkipRecorded;
    hide FailedRefs;
    hide SkipOutcome;
    hide Exceeded;
    var s1 := s.(steps := s.steps + 1);
    ExecuteFrame(g, s1, inp);
    SkipFrame(g, s1, SkipOutcome(g, s1));
  }

  /** Exactly what the first half reports and in which order; the checkpoint is of the state it ends in. */
  lemma WorkEvents(g: Graph, s: State, inp: Input)
    requires s.node in g.nodes
    ensures var h := Work(g, s, inp);
      && (h.Halt? ==> h.events == [] || (|h.events| == 1 && h.events[0].Ran?))
      && (h.Go? && h.phase.AtExit? ==> h.events == [Saved(Snapshot(g, h.state))])
      && (h.Go? && h.phase.SkippedNode? ==>
            h.events == [Recorded(s.node, h.phase.outcome, false), Saved(Snapshot(g, h.state))])
      && (h.Go? && h.phase.CompletedNode? ==>
            h.events == [] ||
            (|h.events| == 3 && h.events[0].Ran? && h.events[0].node == s.node && h.events[0].inp == inp &&
             Verdict(g.nodes[s.node], inp) == Some(h.phase.outcome) &&
             h.events[1] == Recorded(s.node, h.phase.outcome, true) && h.events[2] == Saved(Snapshot(g, h.state))))
  {
    hide FailedRefs;
    hide SkipOutcome;
    hide ShownContext;
    hide Stopped;
    hide Visit;
    hide Verdict;
    hide Snapshot;
    hide Assign;
    hide Populate;
    hide FaultText;
    hide AfterUpdates;
  }

  /** The per-attempt tables, unchanged or emptied together, and said so; nothing else of a run but position and budgets. */
  ghost predicate Routed(s: State, t: Turn) {
    && t.state.steps == s.steps && t.state.pending == s.pending
    && ((t.events == [] && t.state.outcomes == s.outcomes && t.state.failed == s.failed && t.state.completed == s.completed) ||
        (t.events == [Cleared] && t.state.outcomes == [] && t.state.failed == map[] && t.state.completed == []))
  }

  lemma FollowRouted(s: State, e: Edge)
    ensures Routed(s, FollowEdge(s, e))
  {
    hide Decimal;
  }

  /** What the second half can change. */
  lemma RouteFrame(g: Graph, s: State, phase: Phase, prefer: NodeId)
    requires s.node in g.nodes
    ensures Routed(s, Route(g, s, phase, prefer))
  {
    hide GateJump;
    hide CheckGoalGates;
    hide SkipEdge;
    hide SelectEdge;
    hide FailureRetryTarget;
    hide FansOut;
    hide Terminate;
    hide FanInNode;
    hide FollowEdge;
    hide Outgoing;
    hide Targets;
    match phase {
      case AtExit =>
      case SkippedNode(skip) =>
      case CompletedNode(o) =>
        var edge := SelectEdge(g, s.node, o, s.ctx);
        if edge.Some? { FollowRouted(s, edge.value); }
    }
  }

  lemma RouteStays(g: Graph, s: State, phase: Phase, prefer: NodeId)
    requires WellFormed(g) && s.node in g.nodes
    ensures Route(g, s, phase, prefer).state.node in g.nodes
  {
    hide SelectEdge;
    hide SkipEdge;
    hide Terminate;
    hide CheckGoalGates;
    hide FanInNode;
    match phase {
      case AtExit =>
      case SkippedNode(skip) =>
        SkipEdgeIsUsable(g, s, skip);
      case CompletedNode(o) =>
        SelectedEdgeIsUsable(g, s.node, o, s.ctx);
        if FansOut(g, s.node) { FanInIsNode(g, s.node, prefer); }
    }
  }

  /** The walk never leaves the graph. */
  lemma StaysInGraph(g: Graph, s: State, inp: Input)
    requires WellFormed(g) && s.node in g.nodes
    ensures Iterate(g, s, inp).state.node in g.nodes
  {
    hide Work;
    hide Route;
    WorkFrame(g, s, inp);
    var half := Work(g, s, inp);
    if half.Go? { RouteStays(g, half.state, half.phase, inp.prefer); }
  }

  lemma SkipEdgeIsUsable(g: Graph, s: State, skip: Outcome)
    ensures var e := SkipEdge(g, s, skip); e.Some? ==> e.value in g.edges && e.value.source == s.node
  {
    hide SelectEdge;
    SelectedEdgeIsUsable(g, s.node, SkipRouting(skip), s.ctx);
    var plain := Unconditional(Outgoing(g, s.node));
    if plain != [] {
      UnconditionalMembers(Outgoing(g, s.node), Best(plain));
      FromMembers(g.edges, s.node, Best(plain));
    }
  }

  ghost function Walk(g: Graph, s: State, inputs: seq<Input>): Turn
    requires WellFormed(g) && s.node in g.nodes
    decreases |inputs|
  {
    if inputs == [] then Turn(s, None, [])
    else
      var t := Iterate(g, s, inputs[0]);
      StaysInGraph(g, s, inputs[0]);
      if t.result.Some? then t
      else
        var rest := Walk(g, t.state, inputs[1..]);
        Turn(rest.state, rest.result, t.events + rest.events)
  }
}
