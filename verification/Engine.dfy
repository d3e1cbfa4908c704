/**
 * The engine object of engine.py: its fields, and the loop that updates them in place. Each method is
 * proved against the state machine of EngineModel; what that machine guarantees is proved elsewhere.
 */
module Engine {
  import opened Prelude
  import opened Outcomes
  import opened Graphs
  import opened EdgeSelection
  import opened NodeFiles
  import opened FanIn
  import opened Retry
  import opened Checkpoints
  import opened EngineModel
  import opened Kills
  import File = CheckpointFile

  /** The run directory, as far as the engine's checkpoints go. */
  class RunDirectory {
    var checkpoint: File.FileState

    constructor (found: File.FileState)
      ensures checkpoint == found
    {
      checkpoint := found;
    }
  }

  /** The variables local to the loop. */
  datatype Position = Position(node: NodeId, gateRetries: nat, routeRetries: nat, steps: nat, pending: Option<Outcome>)

  /** How far the first half of a turn got: an early end, or a point to route from. */
  datatype Progress = Ended(outcome: Outcome) | Reached(phase: Phase)

  predicate Shows(progress: Progress, half: Half) {
    if half.Halt? then progress == Ended(half.outcome) else progress == Reached(half.phase)
  }

  class PipelineEngine {
    const graph: Graph
    const directory: RunDirectory

    var context: Context
    var completedNodes: seq<NodeId>
    var nodeOutcomes: Assoc<NodeId, Outcome>
    var failedOutputs: map<Key, NodeId>
    var iterationCount: nat
    var executionCounts: map<NodeId, nat>
    var fidelityArmed: bool
    var lastCheckpoint: Option<Checkpoint>

    ghost const found: File.FileState  // what lay in the run directory before this process wrote there
    ghost var trace: seq<Event>

    constructor (g: Graph, dir: RunDirectory, ctx: Context)
      ensures graph == g && directory == dir && context == ctx && New() && found == dir.checkpoint
    {
      graph, directory, context := g, dir, ctx;
      completedNodes, nodeOutcomes, failedOutputs := [], [], map[];
      iterationCount, executionCounts, fidelityArmed, lastCheckpoint := 0, map[], false, None;
      found, trace := dir.checkpoint, [];
    }

    /** The machine state that the fields and the loop's variables make up. */
    ghost function View(p: Position): State
      reads this
    {
      State(p.node, context, completedNodes, nodeOutcomes, failedOutputs, iterationCount, executionCounts,
            p.gateRetries, p.routeRetries, p.steps, p.pending, fidelityArmed)
    }

    /** Nothing executed or restored yet. */
    ghost predicate New()
      reads this, directory
    {
      && completedNodes == [] && nodeOutcomes == [] && failedOutputs == map[] && iterationCount == 0
      && executionCounts == map[] && !fidelityArmed && InFlight() && trace == []
    }

    /** The file is the last checkpoint this process saved; before the first, it is as found. */
    ghost predicate InFlight()
      reads this`lastCheckpoint, this`trace, directory
    {
      var saves := Saves(trace);
      if saves == [] then lastCheckpoint.None? && directory.checkpoint == found
      else
        var last := saves[|saves| - 1];
        lastCheckpoint == Some(last) && directory.checkpoint == File.Parsed(File.Save(last))
    }

    // -------------------------------------------------------------------------
    // Steps of the loop body
    // -------------------------------------------------------------------------

    method SaveCheckpoint(p: Position)
      requires InFlight()
      modifies this`lastCheckpoint, this`trace, directory
      ensures trace == old(trace) + [Saved(Snapshot(graph, View(p)))] && InFlight()
    {
      hide File.Save;
      hide Attempts;
      hide ToRecord;
      var retries: Assoc<NodeId, nat>, records: Assoc<NodeId, OutcomeRecord> := [], [];
      for i := 0 to |nodeOutcomes|
        invariant retries == RetriesOf(nodeOutcomes)[..i] && records == RecordsOf(nodeOutcomes)[..i]
      {
        var (id, outcome) := nodeOutcomes[i];
        retries := retries + [(id, Attempts(outcome) - 1)];
        records := records + [(id, ToRecord(outcome))];
      }
      assert retries == RetriesOf(nodeOutcomes) && records == RecordsOf(nodeOutcomes);
      var checkpoint := Checkpoint(p.node, completedNodes, context, retries, SCHEMA_VERSION, IN_FLIGHT, records,
                                   EngineCounters(iterationCount, executionCounts, p.gateRetries, p.routeRetries, p.steps),
                                   GraphIdentity(graph.fingerprint, graph.dotSource));
      directory.checkpoint := File.Parsed(File.Save(checkpoint));
      lastCheckpoint := Some(checkpoint);
      SavesConcat(trace, [Saved(checkpoint)]);
      assert Saves([Saved(checkpoint)]) == [checkpoint] by { assert [Saved(checkpoint)][1..] == []; }
      trace := trace + [Saved(checkpoint)];
    }

    /** Add an event that is not a save to the trace. */
    ghost method Note(e: Event)
      requires InFlight() && !e.Saved?
      modifies this`trace
      ensures trace == old(trace) + [e] && InFlight()
    {
      NoSaves(trace, e);
      trace := trace + [e];
    }

    method PopulateFailedOutputs(id: NodeId)
      modifies this`failedOutputs
      ensures failedOutputs == Populate(graph, old(failedOutputs), id)
    {
      var outputs := OutputsOf(graph, id);
      var todo := outputs;
      while todo != {}
        invariant todo <= outputs
        invariant failedOutputs == old(failedOutputs) + map k | k in outputs - todo && k !in old(failedOutputs) :: id
      {
        var key :| key in todo;
        if key !in failedOutputs {
          failedOutputs := failedOutputs[key := id];
        }
        todo := todo - {key};
      }
    }

    /** Forget the attempt: what a retry jump and a loop restart have in common. */
    method ClearAttempt()
      requires InFlight()
      modifies this`completedNodes, this`nodeOutcomes, this`failedOutputs, this`trace
      ensures completedNodes == [] && nodeOutcomes == [] && failedOutputs == map[]
      ensures trace == old(trace) + [Cleared] && InFlight()
    {
      completedNodes, nodeOutcomes, failedOutputs := [], [], map[];
      Note(Cleared);
    }

    method CheckNodeSkip(id: NodeId) returns (skip: Option<Outcome>)
      ensures var failed := set k | k in RefsOf(graph, id) && k in failedOutputs;
        skip == if failed == {} then None
                else Some(Synthetic(Skipped, Some(RefusedInputs(id, failed)), Some(PredecessorFailed)))
    {
      var refs := RefsOf(graph, id);
      var todo := refs;
      var failed: set<Key> := {};
      while todo != {}
        invariant todo <= refs && failed == set k | k in refs - todo && k in failedOutputs
      {
        var key :| key in todo;
        if key in failedOutputs {
          failed := failed + {key};
        }
        todo := todo - {key};
      }
      assert refs - todo == refs;
      if failed == {} { return None; }
      return Some(Synthetic(Skipped, Some(RefusedInputs(id, failed)), Some(PredecessorFailed)));
    }

    method GateOutcome() returns (gate: Outcome)
      ensures forall p :: gate == CheckGoalGates(graph, View(p))
    {
      var unsatisfied: seq<NodeId> := [];
      for i := 0 to |nodeOutcomes|
        invariant unsatisfied + Unsatisfied(graph, nodeOutcomes[i..]) == Unsatisfied(graph, nodeOutcomes)
      {
        var (id, outcome) := nodeOutcomes[i];
        assert nodeOutcomes[i..][1..] == nodeOutcomes[i + 1..];
        if IsGate(graph, id) && !GateMet(outcome) {
          unsatisfied := unsatisfied + [id];
        }
      }
      assert unsatisfied == Unsatisfied(graph, nodeOutcomes) by { assert unsatisfied + [] == unsatisfied; }
      if unsatisfied == [] {
        if completedNodes != [] {
          var last := Lookup(nodeOutcomes, completedNodes[|completedNodes| - 1]);
          if last.Some? { return last.value; }
        }
        return Synthetic(Success, Some(PipelineCompleted), None);
      }
      gate := Synthetic(Fail, None, Some(UnsatisfiedGates(unsatisfied)));
      if unsatisfied[0] in graph.nodes {
        var target := GateRetryTarget(graph, graph.nodes[unsatisfied[0]]);
        if Truthy(target) && target.value in graph.nodes {
          gate := gate.(suggestedNextIds := Some([StrId(target.value)]));
        }
      }
    }

    /** Run the node's handler through the retry ladder; nothing when it ends the run by a fault. */
    method RunHandler(n: Node, inp: Input) returns (raw: Option<Outcome>, fault: string)
      ensures raw == RawOutcome(n, inp)
      ensures raw.None? && !inp.execution.FuseTimeout? ==> fault == FaultText(n, inp)
    {
      match inp.execution {
        case FuseTimeout => return None, "";
        case NodeTimeout =>
          var status := if n.allowPartial then PartialSuccess else Fail;
          return Some(Synthetic(status, Some(NodeTimedOut(n.id)), Some(Plain("timeout")))), "";
        case RanLadder(world) =>
          var run := ExecuteWithRetry(n, world);
          match run.end {
            case Finished(outcome) => return Some(outcome), "";
            case Faulted(text) => return None, text;
          }
      }
    }

    /** Count the visit, apply the one-shot cap of a resumed walk. */
    method EnterNode(p: Position, ghost inp: Input)
      requires p.node in graph.nodes && InFlight()
      modifies this`executionCounts, this`context, this`fidelityArmed, this`trace
      ensures var before := old(View(p));
        && View(p) == Entered(graph.nodes[p.node], before)
        && trace == old(trace) + [Ran(p.node, Visit(before), context, inp)] && InFlight()
    {
      hide InFlight;
      var visit := (if p.node in executionCounts then executionCounts[p.node] else 0) + 1;
      executionCounts := executionCounts[p.node := visit];
      if fidelityArmed && graph.nodes[p.node].resolvesFull {
        context := context[CapKey := Text("summary:high")];
      }
      fidelityArmed := false;
      Note(Ran(p.node, visit, context, inp));
    }

    method UpdateContext(outcome: Outcome)
      modifies this`context
      ensures context == AfterUpdates(old(context), outcome)
    {
      if outcome.contextUpdates.Some? {
        context := context + outcome.contextUpdates.value;
      } else {
        assert context + map[] == context;
      }
      context := context["outcome" := Text(StatusText(outcome.status))];
      if outcome.preferredLabel.Some? && outcome.preferredLabel.value != "" {
        context := context["preferred_label" := Text(outcome.preferredLabel.value)];
      }
    }

    /** Record an executed node: outcome, failed outputs, context. */
    method RecordCompletion(p: Position, outcome: Outcome)
      requires InFlight() && CapKey !in context
      modifies this`completedNodes, this`nodeOutcomes, this`failedOutputs, this`context, this`trace
      ensures View(p) == Completed(graph, old(View(p)), outcome)
      ensures trace == old(trace) + [Recorded(p.node, outcome, true)] && InFlight()
    {
      hide AfterUpdates;
      hide Populate;
      hide Assign;
      hide InFlight;
      assert context - {CapKey} == context;
      completedNodes := completedNodes + [p.node];
      nodeOutcomes := Assign(nodeOutcomes, p.node, outcome);
      if outcome.status == Fail {
        PopulateFailedOutputs(p.node);
      }
      UpdateContext(outcome);
      Note(Recorded(p.node, outcome, true));
    }

    method RecordSkip(p: Position, outcome: Outcome)
      requires InFlight()
      modifies this`completedNodes, this`nodeOutcomes, this`failedOutputs, this`trace
      ensures View(p) == SkipRecorded(graph, old(View(p)), outcome)
      ensures trace == old(trace) + [Recorded(p.node, outcome, false)] && InFlight()
    {
      completedNodes := completedNodes + [p.node];
      nodeOutcomes := Assign(nodeOutcomes, p.node, outcome);
      PopulateFailedOutputs(p.node);
      Note(Recorded(p.node, outcome, false));
    }

    /** The overrides applied to what the ladder returned, the artifact contract last. */
    method Override(n: Node, raw: Outcome, inp: Input) returns (outcome: Outcome)
      requires RawOutcome(n, inp) == Some(raw)
      ensures Verdict(n, inp) == Some(outcome)
    {
      outcome := raw;
      if n.autoStatus && outcome.status == Skipped {
        outcome := outcome.(status := Success, notes := Some(AutoStatusPromotion), isExplicit := false);
      }
      var violation := CheckMustWrite(n, outcome, inp.start, inp.artifact);
      if violation.Some? {
        outcome := violation.value;
      }
    }

    /** From entering a node that is not skipped to its save. */
    method ExecuteNode(p: Position, inp: Input) returns (progress: Progress)
      requires InFlight() && p.node in graph.nodes
      modifies this, directory
      ensures var h := Execute(graph, old(View(p)), inp);
        Shows(progress, h) && View(p) == h.state && trace == old(trace) + h.events && InFlight()
    {
      hide RawOutcome;
      hide Verdict;
      hide FaultText;
      hide InFlight;
      hide Snapshot;
      hide Entered;
      hide Completed;
      ghost var before := View(p);
      var n := graph.nodes[p.node];
      EnterNode(p, inp);
      ghost var entered := View(p);
      ghost var ran := Ran(p.node, Visit(before), context, inp);
      var raw, fault := RunHandler(n, inp);
      RawDecides(n, inp);
      if inp.execution.FuseTimeout? {
        return Ended(OverBudgetOutcome);
      }
      if raw.None? {
        var failed := Synthetic(Fail, Some(Plain(fault)), Some(Plain(fault)));
        assert nodeOutcomes == before.outcomes by { EnteredKeeps(n, before); }
        nodeOutcomes := Assign(nodeOutcomes, p.node, failed);
        return Ended(failed);
      }
      context := context - {CapKey};
      if inp.cancelledAfter {
        return Ended(CancelledOutcome);
      }
      var outcome := Override(n, raw.value, inp);
      ghost var uncapped := View(p);
      RecordCompletion(p, outcome);
      CompletedUncapped(graph, entered, uncapped, outcome);
      SaveCheckpoint(p);
      return Reached(CompletedNode(outcome));
    }

    /** The top of the loop body: bounds, cancellation, exit, resume hop, skip, execution. */
    method FirstHalf(p0: Position, inp: Input) returns (progress: Progress, p: Position)
      requires InFlight() && p0.node in graph.nodes
      modifies this, directory
      ensures var h := Work(graph, old(View(p0)), inp);
        Shows(progress, h) && View(p) == h.state && trace == old(trace) + h.events && InFlight()
    {
      hide Execute;
      hide InFlight;
      hide Snapshot;
      hide Populate;
      ghost var before := View(p0);
      p := p0.(steps := p0.steps + 1);
      assert View(p) == before.(steps := before.steps + 1);
      if p.steps > |graph.nodes| * MAX_RETRIES {
        return Ended(Exceeded(graph)), p;
      }
      if inp.overBudget {
        return Ended(OverBudgetOutcome), p;
      }
      if inp.cancelledBefore {
        return Ended(CancelledOutcome), p;
      }
      if graph.nodes[p.node].IsExit() {
        SaveCheckpoint(p);
        return Reached(AtExit), p;
      }
      if p.pending.Some? {
        var outcome := p.pending.value;
        p := p.(pending := None);
        return Reached(CompletedNode(outcome)), p;
      }
      var skip := CheckNodeSkip(p.node);
      if skip.Some? {
        RecordSkip(p, skip.value);
        SaveCheckpoint(p);
        return Reached(SkippedNode(skip.value)), p;
      }
      progress := ExecuteNode(p, inp);
    }

    /** An exit: the gate verdict, or a jump back to a retry target. */
    method LeaveExit(p0: Position) returns (result: Option<Outcome>, p: Position)
      modifies this`completedNodes, this`nodeOutcomes, this`failedOutputs, this`trace
      requires InFlight()
      ensures var t := RouteExit(graph, old(View(p0)));
        result == t.result && View(p) == t.state && trace == old(trace) + t.events && InFlight()
    {
      hide InFlight;
      hide CheckGoalGates;
      var gate := GateOutcome();
      assert gate == CheckGoalGates(graph, View(p0));
      if gate.status == Fail && gate.Suggestions() != [] && p0.gateRetries < MAX_RETRIES {
        var id := CoerceSuggestedId(gate.Suggestions()[0]);
        if id.Some? && id.value in graph.nodes {
          ClearAttempt();
          return None, p0.(gateRetries := p0.gateRetries + 1, node := id.value);
        }
      }
      return Some(gate), p0;
    }

    /** A skipped node: an edge as for a failure, else a failure retry, else the end. */
    method LeaveSkipped(p0: Position, skip: Outcome) returns (result: Option<Outcome>, p: Position)
      requires p0.node in graph.nodes
      ensures var t := RouteSkipped(graph, View(p0), skip);
        result == t.result && View(p) == t.state && t.events == []
    {
      hide SelectEdge;
      var routing := Synthetic(Fail, skip.notes, skip.failureReason);
      var edge := SelectEdge(graph, p0.node, routing, context);
      if edge.None? {
        var candidates := Unconditional(Outgoing(graph, p0.node));
        if candidates != [] {
          edge := Some(Best(candidates));
        }
      }
      if edge.None? {
        var retry := FailureRetryTarget(graph, graph.nodes[p0.node]);
        if retry.Some? && p0.routeRetries < MAX_RETRIES {
          return None, p0.(routeRetries := p0.routeRetries + 1, node := retry.value);
        }
        return Some(Terminate(routing, NoEdgeFromSkipped(p0.node))), p0;
      }
      return None, p0.(node := edge.value.target);
    }

    /** Follow an edge; a restarting one empties the attempt and starts the next iteration. */
    method Advance(p0: Position, e: Edge) returns (p: Position)
      requires InFlight()
      modifies this`completedNodes, this`nodeOutcomes, this`failedOutputs, this`iterationCount, this`context, this`trace
      ensures var t := FollowEdge(old(View(p0)), e);
        t.result.None? && View(p) == t.state && trace == old(trace) + t.events && InFlight()
    {
      hide InFlight;
      hide Decimal;
      p := p0.(node := e.target);
      if e.loopRestart {
        iterationCount := iterationCount + 1;
        ClearAttempt();
        p := p.(gateRetries := 0, routeRetries := 0);
        context := context["preferred_label" := Null];
        context := context["iteration" := Text(Decimal(iterationCount))];
        context := context["loop_count" := Text(Decimal(iterationCount))];
      }
    }

    /** A completed node: the fan-in of a component, else the selected edge, else a failure retry, else the end. */
    method LeaveCompleted(p0: Position, outcome: Outcome, prefer: NodeId) returns (result: Option<Outcome>, p: Position)
      requires InFlight() && p0.node in graph.nodes
      modifies this`completedNodes, this`nodeOutcomes, this`failedOutputs, this`iterationCount, this`context, this`trace
      ensures var t := RouteCompleted(graph, old(View(p0)), outcome, prefer);
        result == t.result && View(p) == t.state && trace == old(trace) + t.events && InFlight()
    {
      hide InFlight;
      hide SelectEdge;
      hide FollowEdge;
      hide FanInNode;
      if graph.nodes[p0.node].IsComponent() {
        var branches := Outgoing(graph, p0.node);
        if |branches| > 1 {
          var meeting := FindFanInNode(graph.edges, Targets(branches), prefer);
          if meeting.None? {
            return Some(Synthetic(Fail, None, Some(NoConvergence(p0.node)))), p0;
          }
          return None, p0.(node := meeting.value);
        }
      }
      var edge := SelectEdge(graph, p0.node, outcome, context);
      if edge.None? {
        var retry := FailureRetryTarget(graph, graph.nodes[p0.node]);
        if retry.Some? && p0.routeRetries < MAX_RETRIES {
          ClearAttempt();
          return None, p0.(routeRetries := p0.routeRetries + 1, node := retry.value);
        }
        return Some(Terminate(outcome, NoMatchingEdge(p0.node))), p0;
      }
      p := Advance(p0, edge.value);
      return None, p;
    }

    method SecondHalf(p0: Position, phase: Phase, prefer: NodeId) returns (result: Option<Outcome>, p: Position)
      requires InFlight() && p0.node in graph.nodes
      modifies this`completedNodes, this`nodeOutcomes, this`failedOutputs, this`iterationCount, this`context, this`trace
      ensures var t := Route(graph, old(View(p0)), phase, prefer);
        result == t.result && View(p) == t.state && trace == old(trace) + t.events && InFlight()
    {
      match phase {
        case AtExit => result, p := LeaveExit(p0);
        case SkippedNode(skip) => result, p := LeaveSkipped(p0, skip);
        case CompletedNode(outcome) => result, p := LeaveCompleted(p0, outcome, prefer);
      }
    }

    // -------------------------------------------------------------------------
    // The loop and its entry points
    // -------------------------------------------------------------------------

    /** The walk. Without a result the process was killed before its next turn. */
    method RunLoop(start: Position, inputs: seq<Input>) returns (result: Option<Outcome>, ghost end: Position)
      requires WellFormed(graph) && start.node in graph.nodes && InFlight()
      modifies this, directory
      ensures var t := Walk(graph, old(View(start)), inputs);
        result == t.result && View(end) == t.state && trace == old(trace) + t.events && InFlight()
    {
      hide Iterate;
      hide InFlight;
      var p := start;
      ghost var whole := Walk(graph, View(start), inputs);
      for i := 0 to |inputs|
        invariant p.node in graph.nodes && InFlight()
        invariant var rest := Walk(graph, View(p), inputs[i..]);
          whole.result == rest.result && whole.state == rest.state && old(trace) + whole.events == trace + rest.events
      {
        ghost var before, past := View(p), trace;
        assert inputs[i..][1..] == inputs[i + 1..];
        StaysInGraph(graph, before, inputs[i]);
        WorkFrame(graph, before, inputs[i]);
        result, p := Turn(p, inputs[i]);
        if result.Some? {
          return result, p;
        }
      }
      return None, p;
    }

    method Turn(p0: Position, inp: Input) returns (result: Option<Outcome>, p: Position)
      requires InFlight() && p0.node in graph.nodes
      modifies this, directory
      ensures var t := Iterate(graph, old(View(p0)), inp);
        result == t.result && View(p) == t.state && trace == old(trace) + t.events && InFlight()
    {
      hide Work;
      hide Route;
      hide InFlight;
      ghost var before := View(p0);
      WorkFrame(graph, before, inp);
      var progress;
      progress, p := FirstHalf(p0, inp);
      match progress {
        case Ended(outcome) => return Some(outcome), p;
        case Reached(phase) =>
          result, p := SecondHalf(p, phase, inp.prefer);
      }
    }

    /** Flip the last saved checkpoint to completed; without one there is nothing to mark. */
    method MarkRunCompleted()
      requires InFlight()
      modifies this`lastCheckpoint, directory
      ensures var saves := Saves(trace);
        directory.checkpoint ==
          if saves == [] then old(directory.checkpoint)
          else File.Parsed(File.Save(saves[|saves| - 1].(runState := COMPLETED)))
    {
      if lastCheckpoint.Some? {
        var completed := lastCheckpoint.value.(runState := COMPLETED);
        lastCheckpoint := Some(completed);
        directory.checkpoint := File.Parsed(File.Save(completed));
      }
    }

    /** A fresh run from the start node. */
    method Run(start: NodeId, inputs: seq<Input>) returns (result: Option<Outcome>)
      requires WellFormed(graph) && start in graph.nodes && New()
      modifies this, directory
      ensures var t := Walk(graph, Fresh(start, old(context)), inputs);
        result == t.result && trace == t.events && Left(t)
    {
      var p := Position(start, 0, 0, 0, None);
      ghost var s := View(p);
      assert s == Fresh(start, context);
      result := Enter(p, inputs);
    }

    /** What both entry points share: walk, and mark a run that returned. */
    method Enter(p: Position, inputs: seq<Input>) returns (result: Option<Outcome>)
      requires WellFormed(graph) && p.node in graph.nodes && InFlight() && trace == []
      modifies this, directory
      ensures var t := Walk(graph, old(View(p)), inputs);
        result == t.result && trace == t.events && Left(t)
    {
      hide Walk;
      ghost var s := View(p);
      ghost var end;
      result, end := RunLoop(p, inputs);
      assert [] + Walk(graph, s, inputs).events == Walk(graph, s, inputs).events;
      if result.Some? {
        MarkRunCompleted();
      }
      hide File.Save;
    }

    /** What a process leaves in the run directory: its last save, marked completed if it returned. */
    ghost predicate Left(t: EngineModel.Turn)
      reads directory
    {
      directory.checkpoint == Final(found, t)
    }

    /** Continue from a checkpoint that passed the ladder. */
    method Resume(c: Checkpoint, overrides: Context, inputs: seq<Input>) returns (result: Option<Outcome>)
      requires WellFormed(graph) && c.currentNode in graph.nodes && ValidRecords(c.nodeOutcomes) && New()
      modifies this, directory
      ensures var s := Restore(graph, c);
        var t := Walk(graph, s.(ctx := old(context) + c.context + overrides), inputs);
        result == t.result && trace == t.events && Left(t)
    {
      hide Restore;
      hide Walk;
      hide Final;
      var p := RestoreState(c, overrides);
      result := Enter(p, inputs);
    }

    method RestoreState(c: Checkpoint, overrides: Context) returns (p: Position)
      requires c.currentNode in graph.nodes && ValidRecords(c.nodeOutcomes) && New()
      modifies this`context, this`completedNodes, this`nodeOutcomes, this`iterationCount, this`executionCounts,
               this`failedOutputs, this`fidelityArmed
      ensures View(p) == Restore(graph, c).(ctx := old(context) + c.context + overrides)
      ensures p.node == c.currentNode && InFlight() && trace == []
    {
      hide InFlight;
      hide Derived;
      hide RestoreOutcomes;
      hide ValidRecords;
      context := context + c.context + overrides;
      completedNodes := c.completedNodes;
      RestoreNodeOutcomes(c);
      iterationCount, executionCounts := c.counters.iterationCount, c.counters.executionCounts;
      DeriveFailedOutputs();
      fidelityArmed := true;
      p := Position(c.currentNode, c.counters.gateRetries, c.counters.routeRetries, c.counters.steps,
                    Lookup(nodeOutcomes, c.currentNode));
    }

    method RestoreNodeOutcomes(c: Checkpoint)
      requires ValidRecords(c.nodeOutcomes)
      modifies this`nodeOutcomes
      ensures nodeOutcomes == RestoreOutcomes(c.nodeOutcomes, c.nodeRetries)
    {
      nodeOutcomes := [];
      for i := 0 to |c.nodeOutcomes|
        invariant nodeOutcomes == RestoreOutcomes(c.nodeOutcomes, c.nodeRetries)[..i]
      {
        var (id, record) := c.nodeOutcomes[i];
        nodeOutcomes := nodeOutcomes + [(id, FromRecord(record, Lookup(c.nodeRetries, id).Or(0)))];
      }
      assert nodeOutcomes == RestoreOutcomes(c.nodeOutcomes, c.nodeRetries);
    }

    /** The table is derived from the restored outcomes, in their order. */
    method DeriveFailedOutputs()
      requires failedOutputs == map[]
      modifies this`failedOutputs
      ensures failedOutputs == Derived(graph, nodeOutcomes)
    {
      hide Populate;
      for i := 0 to |nodeOutcomes|
        invariant failedOutputs == Derived(graph, nodeOutcomes[..i])
      {
        assert nodeOutcomes[..i + 1][..i] == nodeOutcomes[..i];
        if nodeOutcomes[i].1.status == Fail || nodeOutcomes[i].1.status == Skipped {
          PopulateFailedOutputs(nodeOutcomes[i].0);
        }
      }
      assert nodeOutcomes[..|nodeOutcomes|] == nodeOutcomes;
    }
  }

  /** The checkpoint file a process leaves behind, given what it found and how its walk went. */
  function Final(found: File.FileState, t: Turn): File.FileState {
    var saves := Saves(t.events);
    if saves == [] then found
    else
      var last := saves[|saves| - 1];
      File.Parsed(File.Save(if t.result.Some? then last.(runState := COMPLETED) else last))
  }

  lemma EnteredKeeps(n: Node, s: State)
    ensures Entered(n, s).outcomes == s.outcomes
  {
  }

  lemma CompletedUncapped(g: Graph, s: State, u: State, o: Outcome)
    requires u == s.(ctx := s.ctx - {CapKey})
    ensures Completed(g, u, o) == Completed(g, s, o)
  {
    assert u.ctx - {CapKey} == u.ctx;
  }

  lemma RawDecides(n: Node, inp: Input)
    ensures RawOutcome(n, inp).None? <==> Verdict(n, inp).None?
  {
  }

  lemma NoSaves(trace: seq<Event>, e: Event)
    requires !e.Saved?
    ensures Saves(trace + [e]) == Saves(trace)
  {
    SavesConcat(trace, [e]);
    assert [e][1..] == [];
  }
}
