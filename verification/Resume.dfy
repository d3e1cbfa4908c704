/**
 * Crash and resume: a run killed after a save, reloaded and continued, reaches what the
 * uninterrupted run reaches, one counted step later per kill.
 */
module Resume {
  import opened Prelude
  import opened Outcomes
  import opened Graphs
  import opened EdgeSelection
  import opened Checkpoints
  import opened EngineModel
  import opened NodeFiles
  import opened Retry

  // ---------------------------------------------------------------------------
  // Being the same up to what a checkpoint drops
  // ---------------------------------------------------------------------------

  /** `b` is `a` after resumes that cost `lag` extra steps: all else that routing or gating reads is equal. */
  ghost predicate Sim(a: State, b: State, lag: nat) {
    && b.node == a.node && b.ctx == a.ctx && b.completed == a.completed
    && DurableAll(b.outcomes) == DurableAll(a.outcomes) && b.failed == a.failed
    && b.iteration == a.iteration && b.counts == a.counts
    && b.gateRetries == a.gateRetries && b.routeRetries == a.routeRetries
    && b.steps == a.steps + lag
    && a.pending.None? && b.pending.None?
  }

  ghost predicate SameOutcome(a: Outcome, b: Outcome) {
    Durable(a) == Durable(b)
  }

  ghost predicate SameResult(a: Option<Outcome>, b: Option<Outcome>) {
    (a.None? && b.None?) || (a.Some? && b.Some? && SameOutcome(a.value, b.value))
  }

  /** Outcome tables have one entry per node and none for an exit, which never executes. */
  ghost predicate Tidy(g: Graph, s: State) {
    && DistinctKeys(s.outcomes)
    && (forall e :: e in s.outcomes ==> e.0 in g.nodes && !g.nodes[e.0].IsExit())
  }

  ghost predicate Agrees(g: Graph, s: State) {
    s.failed == Derived(g, s.outcomes)
  }

  // ---------------------------------------------------------------------------
  // What changes with the process: the order in which sets are iterated
  // ---------------------------------------------------------------------------

  /** The same input met by another process, whose sets may be iterated in another order. */
  ghost predicate Reordered(x: Input, y: Input) {
    y == x.(prefer := y.prefer)
  }

  /** The node at which the branches of `id` meet, when equally good ones are tried in the order of `prefer`. */
  ghost function MeetingOf(g: Graph, id: NodeId, prefer: NodeId): Option<NodeId> {
    FanIn.FanInNode(g.edges, Targets(Outgoing(g, id)), prefer)
  }

  /** Both orders break every fan-in tie of the graph alike. */
  ghost predicate SamePick(g: Graph, p: NodeId, q: NodeId) {
    forall id :: FansOut(g, id) ==> MeetingOf(g, id, p) == MeetingOf(g, id, q)
  }

  /** A best meeting node of the branches of `id`. */
  ghost predicate IsMeeting(g: Graph, id: NodeId, v: NodeId) {
    FanIn.IsFanIn(g.edges, Targets(Outgoing(g, id)), v)
  }

  /** The branches of a component have at most one best meeting node: nothing is left to iteration order. */
  ghost predicate UniqueFanIns(g: Graph) {
    forall id, u, v :: FansOut(g, id) && IsMeeting(g, id, u) && IsMeeting(g, id, v) ==> u == v
  }

  /** All orders agree exactly on the graphs without ties. */
  lemma OrderIsInertExactly(g: Graph)
    ensures UniqueFanIns(g) <==> forall p, q :: SamePick(g, p, q)
  {
    hide Outgoing;
    hide FanIn.IsFanIn;
    hide MeetingOf;
    if UniqueFanIns(g) {
      forall p, q ensures SamePick(g, p, q) {
        forall id | FansOut(g, id) ensures MeetingOf(g, id, p) == MeetingOf(g, id, q) {
          MeetingIsBest(g, id, p);
          MeetingIsBest(g, id, q);
        }
      }
    } else {
      var id, u, v :| FansOut(g, id) && IsMeeting(g, id, u) && IsMeeting(g, id, v) && u != v;
      TiedMeets(g, id, u);
      TiedMeets(g, id, v);
      assert !SamePick(g, u, v);
    }
  }

  lemma TiedMeets(g: Graph, id: NodeId, v: NodeId)
    requires FansOut(g, id) && IsMeeting(g, id, v)
    ensures MeetingOf(g, id, v) == Some(v)
  {
    FanIn.AnyTieCanWin(g.edges, Targets(Outgoing(g, id)), v);
  }

  lemma MeetingIsBest(g: Graph, id: NodeId, p: NodeId)
    requires FansOut(g, id)
    ensures var roots := Targets(Outgoing(g, id));
      && (MeetingOf(g, id, p).Some? ==> IsMeeting(g, id, MeetingOf(g, id, p).value))
      && (MeetingOf(g, id, p).None? <==> forall v :: !FanIn.CommonDescendant(g.edges, roots, v))
  {
    FanIn.NoFanInExactly(g.edges, Targets(Outgoing(g, id)), p);
    hide FanIn.IsFanIn;
    hide FanIn.CommonDescendant;
  }

  // ---------------------------------------------------------------------------
  // Tables under DurableAll
  // ---------------------------------------------------------------------------

  lemma {:induction false} AssignDurable(outcomes: Assoc<NodeId, Outcome>, id: NodeId, o: Outcome)
    ensures DurableAll(Assign(outcomes, id, o)) == Assign(DurableAll(outcomes), id, Durable(o))
  {
    var d := DurableAll(outcomes);
    if outcomes == [] {
      assert d == [];
    } else {
      assert d[1..] == DurableAll(outcomes[1..]);
      assert d[0] == (outcomes[0].0, Durable(outcomes[0].1));
      if outcomes[0].0 == id {
        assert DurableAll([(id, o)] + outcomes[1..]) == [(id, Durable(o))] + d[1..];
      } else {
        AssignDurable(outcomes[1..], id, o);
        var rest := Assign(outcomes[1..], id, o);
        assert DurableAll([outcomes[0]] + rest) == [d[0]] + DurableAll(rest);
      }
    }
  }

  lemma {:induction false} LookupDurable(outcomes: Assoc<NodeId, Outcome>, id: NodeId)
    ensures Lookup(DurableAll(outcomes), id) ==
      (if Lookup(outcomes, id).Some? then Some(Durable(Lookup(outcomes, id).value)) else None)
  {
    if outcomes != [] {
      assert DurableAll(outcomes)[1..] == DurableAll(outcomes[1..]);
      LookupDurable(outcomes[1..], id);
    }
  }

  lemma {:induction false} DerivedDurable(g: Graph, outcomes: Assoc<NodeId, Outcome>)
    ensures Derived(g, DurableAll(outcomes)) == Derived(g, outcomes)
  {
    hide Populate;
    if outcomes != [] {
      var n := |outcomes| - 1;
      assert DurableAll(outcomes)[..n] == DurableAll(outcomes[..n]);
      DerivedDurable(g, outcomes[..n]);
    }
  }

  lemma {:induction false} UnsatisfiedDurable(g: Graph, outcomes: Assoc<NodeId, Outcome>)
    ensures Unsatisfied(g, DurableAll(outcomes)) == Unsatisfied(g, outcomes)
  {
    hide IsGate;
    if outcomes != [] {
      assert DurableAll(outcomes)[1..] == DurableAll(outcomes[1..]);
      UnsatisfiedDurable(g, outcomes[1..]);
    }
  }

  lemma DurableAllTwice(outcomes: Assoc<NodeId, Outcome>)
    ensures DurableAll(DurableAll(outcomes)) == DurableAll(outcomes)
  {
    forall i | 0 <= i < |outcomes| ensures DurableAll(DurableAll(outcomes))[i] == DurableAll(outcomes)[i] {
      DurableTwice(outcomes[i].1);
    }
  }

  // ---------------------------------------------------------------------------
  // Tidiness is kept
  // ---------------------------------------------------------------------------

  lemma TidyAssign(g: Graph, s: State, outcomes: Assoc<NodeId, Outcome>, id: NodeId, o: Outcome)
    requires DistinctKeys(outcomes) && s.outcomes == Assign(outcomes, id, o)
    requires forall e :: e in outcomes ==> e.0 in g.nodes && !g.nodes[e.0].IsExit()
    requires id in g.nodes && !g.nodes[id].IsExit()
    ensures Tidy(g, s) && Lookup(s.outcomes, id) == Some(o)
  {
    AssignFacts(outcomes, id, o);
  }

  /** What the first half records for a node that is not an exit. */
  lemma WorkOutcomes(g: Graph, s: State, inp: Input)
    requires s.node in g.nodes && s.pending.None?
    ensures var h := Work(g, s, inp);
      && h.state.pending.None?
      && (h.Halt? ==> h.state.outcomes == s.outcomes ||
                      (!g.nodes[s.node].IsExit() && h.state.outcomes == Assign(s.outcomes, s.node, h.outcome)))
      && (h.Go? && h.phase.AtExit? ==> g.nodes[s.node].IsExit() && h.state == s.(steps := s.steps + 1))
      && (h.Go? && !h.phase.AtExit? ==>
            !g.nodes[s.node].IsExit() && h.state.outcomes == Assign(s.outcomes, s.node, h.phase.outcome))
  {
    hide Verdict;
    hide Snapshot;
    hide Assign;
    hide Populate;
    hide FaultText;
    hide AfterUpdates;
    hide FailedRefs;
    hide SkipOutcome;
  }

  lemma WorkTidy(g: Graph, s: State, inp: Input)
    requires s.node in g.nodes && s.pending.None? && Tidy(g, s)
    ensures var h := Work(g, s, inp);
      && Tidy(g, h.state) && h.state.pending.None?
      && (h.Go? && h.phase.AtExit? ==> g.nodes[s.node].IsExit())
      && (h.Go? && !h.phase.AtExit? ==>
            !g.nodes[s.node].IsExit() && Lookup(h.state.outcomes, s.node) == Some(h.phase.outcome))
  {
    WorkOutcomes(g, s, inp);
    hide Work;
    var h := Work(g, s, inp);
    if h.state.outcomes != s.outcomes || (h.Go? && !h.phase.AtExit?) {
      var o := if h.Halt? then h.outcome else h.phase.outcome;
      TidyAssign(g, h.state, s.outcomes, s.node, o);
    }
  }

  lemma IterateTidy(g: Graph, s: State, inp: Input)
    requires WellFormed(g) && s.node in g.nodes && s.pending.None? && Tidy(g, s)
    ensures var t := Iterate(g, s, inp).state; Tidy(g, t) && t.pending.None?
  {
    WorkTidy(g, s, inp);
    WorkFrame(g, s, inp);
    hide Work;
    var h := Work(g, s, inp);
    if h.Go? { RouteTables(g, h.state, h.phase, inp.prefer); }
  }

  lemma RouteTables(g: Graph, s: State, phase: Phase, prefer: NodeId)
    requires s.node in g.nodes
    ensures var t := Route(g, s, phase, prefer).state;
      (t.outcomes == s.outcomes || t.outcomes == []) && t.pending == s.pending && t.steps == s.steps
  {
    RouteFrame(g, s, phase, prefer);
    hide Route;
  }

  // ---------------------------------------------------------------------------
  // Both halves of a turn respect Sim
  // ---------------------------------------------------------------------------

  /** `ShownContext` differs only in a key that is removed again. */
  lemma CapIsRemoved(n: Node, a: State, b: State)
    requires a.ctx == b.ctx
    ensures ShownContext(n, a) - {CapKey} == ShownContext(n, b) - {CapKey}
  {
  }

  lemma CompletedSim(g: Graph, n: Node, a: State, b: State, o: Outcome, lag: nat)
    requires Sim(a, b, lag)
    ensures Sim(Completed(g, Entered(n, a), o), Completed(g, Entered(n, b), o), lag)
  {
    CapIsRemoved(n, a, b);
    AssignDurable(a.outcomes, a.node, o);
    AssignDurable(b.outcomes, a.node, o);
    hide AfterUpdates;
    hide Populate;
    hide ShownContext;
    hide Assign;
  }

  lemma SkipSim(g: Graph, a: State, b: State, lag: nat)
    requires Sim(a, b, lag)
    ensures SkipOutcome(g, a) == SkipOutcome(g, b) && FailedRefs(g, a) == FailedRefs(g, b)
    ensures Sim(SkipRecorded(g, a, SkipOutcome(g, a)), SkipRecorded(g, b, SkipOutcome(g, b)), lag)
  {
    assert FailedRefs(g, a) == FailedRefs(g, b);
    AssignDurable(a.outcomes, a.node, SkipOutcome(g, a));
    AssignDurable(b.outcomes, a.node, SkipOutcome(g, a));
    hide Populate;
    hide Assign;
    hide FailedRefs;
  }

  ghost predicate HalfSim(ha: Half, hb: Half, lag: nat) {
    && (ha.Halt? <==> hb.Halt?)
    && (ha.Halt? ==> ha.outcome == hb.outcome)
    && (ha.Go? ==> ha.phase == hb.phase && Sim(ha.state, hb.state, lag))
    && (ha.Go? ==> (ha.events == [] <==> hb.events == []))
  }

  /** The order in which sets are iterated has no say in what a node's execution yields. */
  lemma VerdictIgnoresOrder(n: Node, x: Input, y: Input)
    requires Reordered(x, y)
    ensures Verdict(n, y) == Verdict(n, x) && FaultText(n, y) == FaultText(n, x)
  {
    hide Ladder;
    hide CheckMustWrite;
  }

  lemma ExecuteSim(g: Graph, a: State, b: State, x: Input, y: Input, lag: nat)
    requires a.node in g.nodes && Sim(a, b, lag) && Reordered(x, y)
    ensures HalfSim(Execute(g, a, x), Execute(g, b, y), lag)
  {
    var n := g.nodes[a.node];
    assert b.node == a.node;
    VerdictIgnoresOrder(n, x, y);
    if Verdict(n, x).Some? {
      CompletedSim(g, n, a, b, Verdict(n, x).value, lag);
    }
    hide Sim;
    hide Verdict;
    hide Snapshot;
    hide FaultText;
    hide Completed;
    hide Assign;
    hide Visit;
    hide ShownContext;
  }

  lemma WorkSim(g: Graph, a: State, b: State, x: Input, y: Input, lag: nat)
    requires a.node in g.nodes && Sim(a, b, lag) && b.steps < MaxSteps(g) && Reordered(x, y)
    ensures HalfSim(Work(g, a, x), Work(g, b, y), lag)
  {
    hide Execute;
    hide Snapshot;
    hide SkipOutcome;
    hide SkipRecorded;
    hide FailedRefs;
    hide DurableAll;
    var a1, b1 := a.(steps := a.steps + 1), b.(steps := b.steps + 1);
    assert Sim(a1, b1, lag);
    assert Stopped(g, a1.steps, x) == Stopped(g, b1.steps, y);
    SkipSim(g, a1, b1, lag);
    ExecuteSim(g, a1, b1, x, y, lag);
    hide Stopped;
  }

  lemma GatesSim(g: Graph, a: State, b: State, lag: nat)
    requires Sim(a, b, lag)
    ensures SameOutcome(CheckGoalGates(g, a), CheckGoalGates(g, b))
  {
    UnsatisfiedDurable(g, a.outcomes);
    UnsatisfiedDurable(g, b.outcomes);
    hide Unsatisfied;
    hide GateRetryTarget;
    if a.completed != [] {
      LookupDurable(a.outcomes, a.completed[|a.completed| - 1]);
      LookupDurable(b.outcomes, a.completed[|a.completed| - 1]);
    }
  }

  lemma ExitSim(g: Graph, a: State, b: State, lag: nat)
    requires Sim(a, b, lag)
    ensures var ta, tb := RouteExit(g, a), RouteExit(g, b);
      SameResult(ta.result, tb.result) && Sim(ta.state, tb.state, lag)
  {
    GatesSim(g, a, b, lag);
    var ga, gb := CheckGoalGates(g, a), CheckGoalGates(g, b);
    assert ga.status == gb.status && ga.suggestedNextIds == gb.suggestedNextIds by {
      assert Durable(ga) == Durable(gb);
    }
    hide CheckGoalGates;
    hide CoerceSuggestedId;
    assert DurableAll([]) == [];
  }

  lemma SkippedSim(g: Graph, a: State, b: State, skip: Outcome, lag: nat)
    requires a.node in g.nodes && Sim(a, b, lag)
    ensures var ta, tb := RouteSkipped(g, a, skip), RouteSkipped(g, b, skip);
      SameResult(ta.result, tb.result) && Sim(ta.state, tb.state, lag)
  {
    assert SkipEdge(g, a, skip) == SkipEdge(g, b, skip);
    hide SkipEdge;
    hide FailureRetryTarget;
    hide Terminate;
  }

  lemma SameSelection(g: Graph, id: NodeId, x: Outcome, y: Outcome, ctx: Context)
    requires SameOutcome(x, y)
    ensures SelectEdge(g, id, x, ctx) == SelectEdge(g, id, y, ctx)
  {
    SelectionSurvivesCheckpoint(g, id, x, ctx);
    SelectionSurvivesCheckpoint(g, id, y, ctx);
  }

  ghost predicate TurnSim(ta: Turn, tb: Turn, lag: nat) {
    SameResult(ta.result, tb.result) && Sim(ta.state, tb.state, lag)
  }

  lemma FollowSim(a: State, b: State, e: Edge, lag: nat)
    requires Sim(a, b, lag)
    ensures TurnSim(FollowEdge(a, e), FollowEdge(b, e), lag)
  {
    assert DurableAll([]) == [];
    hide Decimal;
  }

  /** Where both routings of a completed node may differ: the fan-in node of its branches. */
  ghost predicate PickedAlike(g: Graph, id: NodeId, p: NodeId, q: NodeId) {
    FansOut(g, id) ==> MeetingOf(g, id, p) == MeetingOf(g, id, q)
  }

  /** Routing a completed node from equal states, sets iterated in two orders, ends equally exactly when both pick alike. */
  lemma CompletedRouteExactly(g: Graph, a: State, b: State, x: Outcome, y: Outcome, p: NodeId, q: NodeId, lag: nat)
    requires a.node in g.nodes && Sim(a, b, lag) && SameOutcome(x, y)
    ensures TurnSim(RouteCompleted(g, a, x, p), RouteCompleted(g, b, y, q), lag) <==> PickedAlike(g, a.node, p, q)
  {
    hide SelectEdge;
    hide FollowEdge;
    hide FanIn.FanInNode;
    hide FansOut;
    hide FailureRetryTarget;
    hide Targets;
    hide Outgoing;
    hide Sim;
    SimNodes(a, b, lag);
    SameSelection(g, a.node, x, y, a.ctx);
    SameTermination(x, y, NoMatchingEdge(a.node));
    hide Terminate;
    hide SameOutcome;
    if FansOut(g, a.node) {
      var m, n := MeetingOf(g, a.node, p), MeetingOf(g, a.node, q);
      MeetingIsBest(g, a.node, p);
      MeetingIsBest(g, a.node, q);
      MovedExactly(a, b, m.Or(""), n.Or(""), lag);
    } else {
      var edge := SelectEdge(g, a.node, x, a.ctx);
      if edge.Some? { FollowSim(a, b, edge.value, lag); }
      RetriedSim(a, b, FailureRetryTarget(g, g.nodes[a.node]).Or(""), lag);
    }
  }

  lemma SameTermination(x: Outcome, y: Outcome, reason: Message)
    requires SameOutcome(x, y)
    ensures Terminate(x, reason) == Terminate(y, reason)
    ensures forall o: Outcome :: SameOutcome(o, o)
  {
    assert Durable(x) == Durable(y);
  }

  lemma MovedExactly(a: State, b: State, x: NodeId, y: NodeId, lag: nat)
    requires Sim(a, b, lag)
    ensures Sim(a.(node := x), b.(node := y), lag) <==> x == y
  {
    hide DurableAll;
  }

  lemma RetriedSim(a: State, b: State, id: NodeId, lag: nat)
    requires Sim(a, b, lag)
    ensures Sim(Clear(a).(routeRetries := a.routeRetries + 1, node := id), Clear(b).(routeRetries := b.routeRetries + 1, node := id), lag)
  {
    assert DurableAll([]) == [];
    hide DurableAll;
  }

  lemma RouteSim(g: Graph, a: State, b: State, phase: Phase, p: NodeId, q: NodeId, lag: nat)
    requires a.node in g.nodes && Sim(a, b, lag) && SamePick(g, p, q)
    ensures TurnSim(Route(g, a, phase, p), Route(g, b, phase, q), lag)
  {
    match phase {
      case AtExit => ExitSim(g, a, b, lag);
      case SkippedNode(skip) => SkippedSim(g, a, b, skip, lag);
      case CompletedNode(o) => CompletedRouteExactly(g, a, b, o, o, p, q, lag);
    }
  }

  /** The same input, in processes whose orders break every tie alike. */
  ghost predicate Alike(g: Graph, x: Input, y: Input) {
    Reordered(x, y) && SamePick(g, x.prefer, y.prefer)
  }

  /** One turn from equal states, on alike inputs, ends equally. */
  lemma IterateSim(g: Graph, a: State, b: State, x: Input, y: Input, lag: nat)
    requires a.node in g.nodes && Sim(a, b, lag) && b.steps < MaxSteps(g) && Alike(g, x, y)
    ensures var ta, tb := Iterate(g, a, x), Iterate(g, b, y);
      SameResult(ta.result, tb.result) && (ta.result.None? ==> Sim(ta.state, tb.state, lag))
  {
    hide SamePick;
    WorkSim(g, a, b, x, y, lag);
    WorkFrame(g, a, x);
    WorkFrame(g, b, y);
    hide Work;
    hide Route;
    var ha, hb := Work(g, a, x), Work(g, b, y);
    if ha.Go? { RouteSim(g, ha.state, hb.state, ha.phase, x.prefer, y.prefer, lag); }
  }

  lemma SimChain(a: State, b: State, c: State, lag: nat, more: nat)
    requires Sim(a, b, lag) && Sim(b, c, more)
    ensures Sim(a, c, lag + more)
  {
  }

  lemma SimNodes(a: State, b: State, lag: nat)
    requires Sim(a, b, lag)
    ensures b.node == a.node && b.ctx == a.ctx && b.steps == a.steps + lag && a.pending.None? && b.pending.None?
    ensures b.routeRetries == a.routeRetries && b.completed == a.completed
  {
  }

  lemma TurnChain(a: Turn, b: Turn, c: Turn, lag: nat, more: nat)
    requires TurnSim(a, b, lag) && TurnSim(b, c, more)
    ensures TurnSim(a, c, lag + more)
  {
    SimChain(a.state, b.state, c.state, lag, more);
  }

  // ---------------------------------------------------------------------------
  // One kill
  // ---------------------------------------------------------------------------

  /** The checkpoint is written, then the process dies. */
  ghost function Reloaded(g: Graph, s: State): (r: State)
    ensures r.node == s.node
  {
    RecordsValid(s.outcomes);
    Restore(g, Snapshot(g, s))
  }

  lemma RecordsValid(outcomes: Assoc<NodeId, Outcome>)
    ensures ValidRecords(RecordsOf(outcomes))
  {
    forall i | 0 <= i < |outcomes| ensures ValidRecord(RecordsOf(outcomes)[i].1) {
      RecordRoundTrip(outcomes[i].1);
    }
  }

  /** Reloading gives the saved state back, but for the derived table and the pending routing decision. */
  lemma ReloadedFacts(g: Graph, s: State)
    requires Tidy(g, s)
    ensures var r := Reloaded(g, s);
      && r.node == s.node && r.ctx == s.ctx && r.completed == s.completed && r.outcomes == DurableAll(s.outcomes)
      && r.failed == Derived(g, s.outcomes) && r.iteration == s.iteration && r.counts == s.counts
      && r.gateRetries == s.gateRetries && r.routeRetries == s.routeRetries && r.steps == s.steps
      && r.pending == (if Lookup(s.outcomes, s.node).Some? then Some(Durable(Lookup(s.outcomes, s.node).value)) else None)
  {
    OutcomesRoundTrip(s.outcomes);
    DerivedDurable(g, s.outcomes);
    LookupDurable(s.outcomes, s.node);
  }

  /** The first half of a resumed process's first turn, once the state is known. */
  lemma QuietWork(g: Graph, r: State, inp: Input)
    requires r.node in g.nodes && r.steps < MaxSteps(g)
    ensures g.nodes[r.node].IsExit() ==>
      var r1 := r.(steps := r.steps + 1);
      Work(g, r, Quiet(inp)) == Go(r1, AtExit, [Saved(Snapshot(g, r1))])
    ensures !g.nodes[r.node].IsExit() && r.pending.Some? ==>
      Work(g, r, Quiet(inp)) ==
        Go(r.(steps := r.steps + 1, pending := None), CompletedNode(r.pending.value), [])
  {
    hide Snapshot;
    hide Execute;
    hide FailedRefs;
    hide SkipRecorded;
    hide SkipOutcome;
  }

  // ---------------------------------------------------------------------------
  // A death after an engine skip
  // ---------------------------------------------------------------------------

  /** A resumed process moves to the node the live one would move to. */
  ghost predicate SameMove(g: Graph, s: State, skip: Outcome, prefer: NodeId) {
    var live := SkipEdge(g, s, skip);
    live.Some? &&
    if FansOut(g, s.node) then FanIn.FanInNode(g.edges, Targets(Outgoing(g, s.node)), prefer) == Some(live.value.target)
    else
      var again := SelectEdge(g, s.node, skip, s.ctx);
      again.Some? && again.value.target == live.value.target && !again.value.loopRestart
  }

  lemma NoMoveWithoutEdge(g: Graph, s: State, skip: Outcome, prefer: NodeId)
    requires SkipEdge(g, s, skip).None?
    ensures !SameMove(g, s, skip, prefer)
  {
  }

  lemma ClearingDiffers(s: State, t: Turn, x: NodeId, lag: nat)
    requires s.completed != [] && (t.result.Some? || t.state.completed == [])
    ensures !TurnSim(Turn(s.(node := x), None, []), t, lag)
  {
    hide DurableAll;
  }

  /** A live skip with somewhere to go: the resumed routing matches it exactly when it moves there too. */
  lemma MovedSkipExactly(g: Graph, s: State, r: State, skip: Outcome, prefer: NodeId, lag: nat)
    requires s.node in g.nodes && Sim(s, r, lag) && s.completed != [] && SkipEdge(g, s, skip).Some?
    ensures TurnSim(RouteSkipped(g, s, skip), RouteCompleted(g, r, Durable(skip), prefer), lag)
       <==> SameMove(g, s, skip, prefer)
  {
    hide SelectEdge;
    hide SkipEdge;
    hide FanIn.FanInNode;
    hide FansOut;
    hide FailureRetryTarget;
    hide Targets;
    hide Outgoing;
    hide Decimal;
    hide Durable;
    hide Terminate;
    hide SkipRouting;
    var d := Durable(skip);
    assert SameOutcome(skip, d) by { DurableTwice(skip); }
    SameSelection(g, s.node, skip, d, s.ctx);
    var x := SkipEdge(g, s, skip).value.target;
    var t := RouteCompleted(g, r, d, prefer);
    var meeting := FanIn.FanInNode(g.edges, Targets(Outgoing(g, s.node)), prefer);
    var again := SelectEdge(g, s.node, skip, s.ctx);
    var y := if FansOut(g, s.node) then meeting.Or("") else if again.Some? then again.value.target else "";
    assert r.node == s.node && r.ctx == s.ctx;
    MovedExactly(s, r, x, y, lag);
    if t.result.Some? || t.state.completed == [] { ClearingDiffers(s, t, x, lag); }
    hide TurnSim;
    hide Sim;
  }

  /** Everything a resumed routing can end in, against a live end or failure retry. */
  lemma StuckEndsDiffer(s: State, t: Turn, reason: Outcome, lag: nat)
    requires t.result.Some? ==> t.result.value.notes != reason.notes
    ensures !TurnSim(Turn(s, Some(reason), []), t, lag)
  {
    hide DurableAll;
    hide Sim;
  }

  lemma StuckRetriesDiffer(s: State, t: Turn, x: NodeId, lag: nat)
    requires s.completed != [] && (t.result.Some? || t.state.completed == [] || t.state.routeRetries == s.routeRetries)
    ensures !TurnSim(Turn(s.(routeRetries := s.routeRetries + 1, node := x), None, []), t, lag)
  {
    hide DurableAll;
  }

  /** What a resumed routing of a recorded skip can end in. */
  lemma ResumedSkipEnds(g: Graph, r: State, d: Outcome, prefer: NodeId)
    requires r.node in g.nodes
    ensures var t := RouteCompleted(g, r, d, prefer);
      && (t.result.Some? ==> t.result.value.notes != Some(NoEdgeFromSkipped(r.node)))
      && (t.result.Some? || t.state.completed == [] || t.state.routeRetries == r.routeRetries)
  {
    hide SelectEdge;
    hide FanIn.FanInNode;
    hide FansOut;
    hide FailureRetryTarget;
    hide Targets;
    hide Outgoing;
    hide Decimal;
  }

  /** A live skip with nowhere to go: no resumed routing can match it. */
  lemma StuckSkipDiffers(g: Graph, s: State, r: State, skip: Outcome, prefer: NodeId, lag: nat)
    requires s.node in g.nodes && Sim(s, r, lag) && s.completed != [] && skip.failureReason == Some(PredecessorFailed)
    requires SkipEdge(g, s, skip).None?
    ensures !TurnSim(RouteSkipped(g, s, skip), RouteCompleted(g, r, Durable(skip), prefer), lag)
  {
    hide SkipEdge;
    hide FailureRetryTarget;
    hide RouteCompleted;
    hide TurnSim;
    assert r.node == s.node && r.routeRetries == s.routeRetries;
    hide Sim;
    var t := RouteCompleted(g, r, Durable(skip), prefer);
    ResumedSkipEnds(g, r, Durable(skip), prefer);
    var reason := Terminate(SkipRouting(skip), NoEdgeFromSkipped(s.node));
    assert reason.notes == Some(NoEdgeFromSkipped(s.node));
    hide Terminate;
    var retry := FailureRetryTarget(g, g.nodes[s.node]);
    if retry.Some? && s.routeRetries < MAX_RETRIES {
      StuckRetriesDiffer(s, t, retry.value, lag);
    } else {
      StuckEndsDiffer(s, t, reason, lag);
    }
  }

  /** Dying after an engine skip is reproduced by the resumed process exactly when both moves coincide. */
  lemma SkipKillExactly(g: Graph, s: State, skip: Outcome, inp: Input)
    requires s.node in g.nodes && Tidy(g, s) && s.pending.None? && Agrees(g, s) && s.steps < MaxSteps(g)
    requires !g.nodes[s.node].IsExit() && Lookup(s.outcomes, s.node) == Some(skip) && s.completed != []
    requires skip.failureReason == Some(PredecessorFailed)
    ensures TurnSim(RouteSkipped(g, s, skip), Iterate(g, Reloaded(g, s), Quiet(inp)), 1)
       <==> SameMove(g, s, skip, inp.prefer)
  {
    ReloadedFacts(g, s);
    DurableAllTwice(s.outcomes);
    var r := Reloaded(g, s);
    QuietWork(g, r, inp);
    var r1 := r.(steps := r.steps + 1, pending := None);
    assert Sim(s, r1, 1);
    hide Sim;
    hide Work;
    hide Reloaded;
    hide RouteSkipped;
    hide RouteCompleted;
    hide SameMove;
    hide SameResult;
    if SkipEdge(g, s, skip).Some? {
      MovedSkipExactly(g, s, r1, skip, inp.prefer, 1);
    } else {
      StuckSkipDiffers(g, s, r1, skip, inp.prefer, 1);
      assert !SameMove(g, s, skip, inp.prefer) by { NoMoveWithoutEdge(g, s, skip, inp.prefer); }
    }
  }

  // ---------------------------------------------------------------------------
  // Deaths after any save
  // ---------------------------------------------------------------------------

  /** What a checkpointed turn leaves to be routed. */
  ghost predicate Checkpointed(g: Graph, s: State, phase: Phase) {
    && s.node in g.nodes && Tidy(g, s) && s.pending.None? && Agrees(g, s)
    && (phase.AtExit? ==> g.nodes[s.node].IsExit())
    && (!phase.AtExit? ==> !g.nodes[s.node].IsExit() && Lookup(s.outcomes, s.node) == Some(phase.outcome))
    && (phase.SkippedNode? ==> s.completed != [] && phase.outcome.failureReason == Some(PredecessorFailed))
  }

  /** The routing left to do at order `p` is what a resumed process does at order `q`. */
  ghost predicate Rejoins(g: Graph, s: State, phase: Phase, p: NodeId, q: NodeId) {
    match phase
    case AtExit => true
    case SkippedNode(skip) => SameMove(g, s, skip, q)
    case CompletedNode(_) => PickedAlike(g, s.node, p, q)
  }

  /**
   * A resumed process, its sets iterated in its own order, makes exactly the routing step that the killed one
   * had left to do: always at an exit; after an executed node if and only if the two orders pick the same fan-in
   * node, should there be one to pick; after an engine skip if and only if both routings move to the same node.
   */
  lemma HopExactly(g: Graph, s: State, phase: Phase, inp: Input, q: NodeId)
    requires Checkpointed(g, s, phase) && s.steps < MaxSteps(g)
    ensures TurnSim(Route(g, s, phase, inp.prefer), Iterate(g, Reloaded(g, s), Quiet(inp).(prefer := q)), 1)
       <==> Rejoins(g, s, phase, inp.prefer, q)
  {
    hide PickedAlike;
    hide SameMove;
    if phase.SkippedNode? { SkipHopExactly(g, s, phase.outcome, inp, q); } else { RunHopExactly(g, s, phase, inp, q); }
    hide TurnSim;
    hide Iterate;
    hide Reloaded;
  }

  lemma SkipHopExactly(g: Graph, s: State, skip: Outcome, inp: Input, q: NodeId)
    requires Checkpointed(g, s, SkippedNode(skip)) && s.steps < MaxSteps(g)
    ensures TurnSim(RouteSkipped(g, s, skip), Iterate(g, Reloaded(g, s), Quiet(inp).(prefer := q)), 1)
       <==> SameMove(g, s, skip, q)
  {
    hide SameMove;
    hide TurnSim;
    hide Iterate;
    hide Reloaded;
    hide RouteSkipped;
    assert Quiet(inp).(prefer := q) == Quiet(inp.(prefer := q));
    SkipKillExactly(g, s, skip, inp.(prefer := q));
  }

  lemma RunHopExactly(g: Graph, s: State, phase: Phase, inp: Input, q: NodeId)
    requires Checkpointed(g, s, phase) && !phase.SkippedNode? && s.steps < MaxSteps(g)
    ensures TurnSim(Route(g, s, phase, inp.prefer), Iterate(g, Reloaded(g, s), Quiet(inp).(prefer := q)), 1)
       <==> (phase.CompletedNode? ==> PickedAlike(g, s.node, inp.prefer, q))
  {
    hide PickedAlike;
    ReloadedFacts(g, s);
    DurableAllTwice(s.outcomes);
    var r := Reloaded(g, s);
    var y := inp.(prefer := q);
    assert Quiet(inp).(prefer := q) == Quiet(y);
    QuietWork(g, r, y);
    var r1 := r.(steps := r.steps + 1, pending := None);
    assert Sim(s, r1, 1);
    if phase.AtExit? {
      if Lookup(s.outcomes, s.node).Some? {
        LookupEntry(s.outcomes, s.node);
      }
      assert r1 == r.(steps := r.steps + 1);
      ExitSim(g, s, r1, 1);
    } else {
      DurableTwice(phase.outcome);
      CompletedRouteExactly(g, s, r1, phase.outcome, Durable(phase.outcome), inp.prefer, q, 1);
    }
    hide Sim;
    hide Work;
    hide Reloaded;
    hide RouteExit;
    hide RouteCompleted;
    hide SameResult;
  }

  /**
   * The first turn of the process that goes on, after `again` further processes have died right after a re-save:
   * at an exit every resumed process saves once more before routing; elsewhere it dies having saved nothing.
   */
  ghost function Hop(g: Graph, saved: State, inp: Input, again: nat, prefer: NodeId): Turn
    requires saved.node in g.nodes
    decreases again
  {
    if again == 0 then Iterate(g, Reloaded(g, saved), Quiet(inp).(prefer := prefer))
    else
      var h := Work(g, Reloaded(g, saved), Quiet(inp));
      if h.Halt? then Turn(h.state, Some(h.outcome), [])
      else
        WorkFrame(g, Reloaded(g, saved), Quiet(inp));
        Hop(g, if h.events == [] then saved else h.state, inp, again - 1, prefer)
  }

  /** How many counted steps the deaths at one save cost: one, and one more for each re-save of an exit. */
  function DeathSteps(g: Graph, id: NodeId, again: nat): nat {
    1 + if id in g.nodes && g.nodes[id].IsExit() then again else 0
  }

  /** The state a process re-saves at an exit. */
  lemma ResavedExit(g: Graph, s: State, phase: Phase)
    requires Checkpointed(g, s, phase) && phase.AtExit?
    ensures var r := Reloaded(g, s);
      var r1 := r.(steps := r.steps + 1);
      Sim(s, r1, 1) && Checkpointed(g, r1, phase)
  {
    ReloadedFacts(g, s);
    DurableAllTwice(s.outcomes);
    ReloadedTidy(g, s);
    DerivedDurable(g, s.outcomes);
    if Lookup(s.outcomes, s.node).Some? { LookupEntry(s.outcomes, s.node); }
  }

  /** However many processes die at one save: the one that goes on routes as the first would have. */
  lemma {:induction false} HopSim(g: Graph, s: State, phase: Phase, inp: Input, again: nat, q: NodeId)
    requires Checkpointed(g, s, phase) && s.steps + DeathSteps(g, s.node, again) <= MaxSteps(g)
    requires Rejoins(g, s, phase, inp.prefer, q)
    ensures TurnSim(Route(g, s, phase, inp.prefer), Hop(g, s, inp, again, q), DeathSteps(g, s.node, again))
    decreases again
  {
    hide Work;
    hide Route;
    hide SamePick;
    hide SameMove;
    hide PickedAlike;
    hide Hop;
    hide Iterate;
    hide Tidy;
    hide Lookup;
    hide Lower;
    assert Tidy(g, s) && (g.nodes[s.node].IsExit() || Lookup(s.outcomes, s.node).Some?);
    ReloadedTidy(g, s);
    HopStep(g, s, inp, again, q);
    var r := Reloaded(g, s);
    assert r.steps == s.steps by { ReloadedFacts(g, s); }
    if again == 0 {
      HopExactly(g, s, phase, inp, q);
      assert Quiet(inp).(prefer := q) == Quiet(inp.(prefer := q));
    } else if phase.AtExit? {
      var r1 := r.(steps := r.steps + 1);
      ResavedExit(g, s, phase);
      hide Reloaded;
      hide Checkpointed;
      HopSim(g, r1, phase, inp, again - 1, q);
      PicksItself(g, inp.prefer);
      RouteSim(g, s, r1, phase, inp.prefer, inp.prefer, 1);
      TurnChain(Route(g, s, phase, inp.prefer), Route(g, r1, phase, inp.prefer), Hop(g, r1, inp, again - 1, q),
                1, DeathSteps(g, s.node, again - 1));
    } else {
      HopSim(g, s, phase, inp, again - 1, q);
    }
  }

  lemma PickedAnywhere(g: Graph, id: NodeId, p: NodeId, q: NodeId)
    requires SamePick(g, p, q)
    ensures PickedAlike(g, id, p, q)
  {
  }

  /** Equal states and orders that pick alike move alike after a skip. */
  lemma SkipMovesAlike(g: Graph, a: State, b: State, skip: Outcome, p: NodeId, q: NodeId, lag: nat)
    requires Sim(a, b, lag) && SamePick(g, p, q) && SameMove(g, a, skip, p)
    ensures SameMove(g, b, skip, q)
  {
    hide SelectEdge;
    hide Outgoing;
    hide FanIn.FanInNode;
    hide DurableAll;
    assert MeetingOf(g, a.node, p) == FanIn.FanInNode(g.edges, Targets(Outgoing(g, a.node)), p);
    assert MeetingOf(g, a.node, q) == FanIn.FanInNode(g.edges, Targets(Outgoing(g, a.node)), q);
    assert SkipEdge(g, b, skip) == SkipEdge(g, a, skip);
  }

  lemma RejoinsAlike(g: Graph, a: State, b: State, phase: Phase, p: NodeId, q: NodeId, r: NodeId, lag: nat)
    requires Sim(a, b, lag) && SamePick(g, p, q) && SamePick(g, p, r)
    requires phase.SkippedNode? ==> SameMove(g, a, phase.outcome, p)
    ensures Rejoins(g, b, phase, q, r)
  {
    hide SameMove;
    hide Sim;
    if phase.SkippedNode? { SkipMovesAlike(g, a, b, phase.outcome, p, r, lag); }
    PicksChain(g, p, q, r);
    PickedAnywhere(g, b.node, q, r);
  }

  lemma PicksItself(g: Graph, p: NodeId)
    ensures SamePick(g, p, p)
  {
  }

  lemma PicksChain(g: Graph, p: NodeId, q: NodeId, r: NodeId)
    requires SamePick(g, p, q) && SamePick(g, p, r)
    ensures SamePick(g, q, r)
  {
  }

  // ---------------------------------------------------------------------------
  // Any number of kills
  // ---------------------------------------------------------------------------

  /**
   * What one process of a chain goes through: the turns up to the one it dies in, after that turn's save;
   * how many of its successors die at the same place; and the set order of the one that goes on.
   */
  datatype Segment = Segment(inputs: seq<Input>, again: nat, prefer: NodeId)

  /** The walk with deaths at the last save of every segment: reload, route, and go on. */
  ghost function Interrupted(g: Graph, s: State, segments: seq<Segment>, final: seq<Input>): Turn
    requires WellFormed(g) && s.node in g.nodes
    decreases |segments|
  {
    if segments == [] then Walk(g, s, final)
    else if segments[0].inputs == [] then Interrupted(g, s, segments[1..], final)
    else
      var seg := segments[0];
      var n := |seg.inputs| - 1;
      var last := seg.inputs[n];
      WalkInGraph(g, s, seg.inputs[..n]);
      var t := Walk(g, s, seg.inputs[..n]);
      if t.result.Some? then t
      else
        var h := Work(g, t.state, last);
        if h.Halt? then Turn(h.state, Some(h.outcome), [])
        else
          WorkFrame(g, t.state, last);
          var u := Hop(g, h.state, last, seg.again, seg.prefer);
          HopInGraph(g, h.state, last, seg.again, seg.prefer);
          if u.result.Some? then u else Interrupted(g, u.state, segments[1..], final)
  }

  lemma {:induction false} HopInGraph(g: Graph, saved: State, inp: Input, again: nat, prefer: NodeId)
    requires WellFormed(g) && saved.node in g.nodes
    ensures Hop(g, saved, inp, again, prefer).state.node in g.nodes
    decreases again
  {
    hide Work;
    hide Iterate;
    var r := Reloaded(g, saved);
    if again == 0 {
      StaysInGraph(g, r, Quiet(inp).(prefer := prefer));
    } else {
      WorkFrame(g, r, Quiet(inp));
      var h := Work(g, r, Quiet(inp));
      if h.Go? { HopInGraph(g, if h.events == [] then saved else h.state, inp, again - 1, prefer); }
    }
  }

  lemma {:induction false} WalkInGraph(g: Graph, s: State, inputs: seq<Input>)
    requires WellFormed(g) && s.node in g.nodes
    ensures Walk(g, s, inputs).state.node in g.nodes
    decreases |inputs|
  {
    hide Iterate;
    if inputs != [] {
      StaysInGraph(g, s, inputs[0]);
      var t := Iterate(g, s, inputs[0]);
      if t.result.None? { WalkInGraph(g, t.state, inputs[1..]); }
    }
  }

  /**
   * The segments end in turns that save, with an agreeing table: an executed node, an exit, or a skip after which
   * both routings move to the same node.
   */
  ghost predicate CleanKills(g: Graph, s: State, segments: seq<seq<Input>>)
    requires WellFormed(g) && s.node in g.nodes
    decreases |segments|
  {
    segments == [] ||
    (segments[0] != [] &&
     var n := |segments[0]| - 1;
     var last := segments[0][n];
     WalkInGraph(g, s, segments[0][..n]);
     var t := Walk(g, s, segments[0][..n]);
     t.result.None? &&
     var h := Work(g, t.state, last);
     h.Go? && Agrees(g, h.state) && (h.phase.SkippedNode? ==> SameMove(g, h.state, h.phase.outcome, last.prefer)) &&
     (StaysInGraph(g, t.state, last);
      var next := Iterate(g, t.state, last);
      next.result.None? ==> CleanKills(g, next.state, segments[1..])))
  }

  function Flatten(segments: seq<seq<Input>>): seq<Input> {
    if segments == [] then [] else segments[0] + Flatten(segments[1..])
  }

  lemma {:induction false} WalkSplit(g: Graph, s: State, a: seq<Input>, b: seq<Input>)
    requires WellFormed(g) && s.node in g.nodes
    ensures var t := Walk(g, s, a);
      t.state.node in g.nodes &&
      (t.result.Some? ==> Walk(g, s, a + b) == t) &&
      (t.result.None? ==> Walk(g, s, a + b).state == Walk(g, t.state, b).state &&
                          Walk(g, s, a + b).result == Walk(g, t.state, b).result)
    decreases |a|
  {
    hide Iterate;
    if a == [] {
      assert a + b == b;
    } else {
      assert (a + b)[1..] == a[1..] + b;
      StaysInGraph(g, s, a[0]);
      var t := Iterate(g, s, a[0]);
      if t.result.None? { WalkSplit(g, t.state, a[1..], b); }
    }
  }

  lemma {:induction false} WalkSteps(g: Graph, s: State, inputs: seq<Input>)
    requires WellFormed(g) && s.node in g.nodes
    ensures Walk(g, s, inputs).state.steps >= s.steps
    ensures Walk(g, s, inputs).result.None? ==> Walk(g, s, inputs).state.steps == s.steps + |inputs|
    decreases |inputs|
  {
    if inputs != [] {
      StaysInGraph(g, s, inputs[0]);
      IterateSteps(g, s, inputs[0]);
      hide Iterate;
      var t := Iterate(g, s, inputs[0]);
      if t.result.None? { WalkSteps(g, t.state, inputs[1..]); }
    }
  }

  lemma IterateSteps(g: Graph, s: State, inp: Input)
    requires s.node in g.nodes
    ensures Iterate(g, s, inp).state.steps == s.steps + 1
  {
    WorkFrame(g, s, inp);
    hide Work;
    hide Route;
    var h := Work(g, s, inp);
    if h.Go? { RouteTables(g, h.state, h.phase, inp.prefer); }
  }

  lemma {:induction false} WalkTidy(g: Graph, s: State, inputs: seq<Input>)
    requires WellFormed(g) && s.node in g.nodes && s.pending.None? && Tidy(g, s)
    ensures var t := Walk(g, s, inputs).state; Tidy(g, t) && t.pending.None?
    decreases |inputs|
  {
    hide Iterate;
    hide Tidy;
    if inputs != [] {
      StaysInGraph(g, s, inputs[0]);
      IterateTidy(g, s, inputs[0]);
      var t := Iterate(g, s, inputs[0]);
      if t.result.None? { WalkTidy(g, t.state, inputs[1..]); }
    }
  }

  ghost predicate AllAlike(g: Graph, xs: seq<Input>, ys: seq<Input>) {
    |xs| == |ys| && forall i :: 0 <= i < |xs| ==> Alike(g, xs[i], ys[i])
  }

  /** Walks from equal states on alike inputs stay equal, as long as the extra steps fit below the bound. */
  lemma {:induction false} WalkSim(g: Graph, a: State, b: State, xs: seq<Input>, ys: seq<Input>, lag: nat)
    requires WellFormed(g) && a.node in g.nodes && Sim(a, b, lag) && AllAlike(g, xs, ys)
    requires Walk(g, a, xs).state.steps + lag <= MaxSteps(g)
    ensures var ta, tb := Walk(g, a, xs), Walk(g, b, ys);
      SameResult(ta.result, tb.result) && (ta.result.None? ==> Sim(ta.state, tb.state, lag))
    decreases |xs|
  {
    hide Alike;
    if xs != [] {
      StaysInGraph(g, a, xs[0]);
      StaysInGraph(g, b, ys[0]);
      IterateSteps(g, a, xs[0]);
      var ta, tb := Iterate(g, a, xs[0]), Iterate(g, b, ys[0]);
      if ta.result.None? { WalkSteps(g, ta.state, xs[1..]); }
      IterateSim(g, a, b, xs[0], ys[0], lag);
      hide Iterate;
      hide Sim;
      if ta.result.None? { WalkSim(g, ta.state, tb.state, xs[1..], ys[1..], lag); }
    }
  }

  lemma ReloadedTidy(g: Graph, s: State)
    requires s.node in g.nodes && Tidy(g, s)
    requires g.nodes[s.node].IsExit() || Lookup(s.outcomes, s.node).Some?
    ensures var r := Reloaded(g, s);
      r.node == s.node && Tidy(g, r) && (r.pending.Some? <==> !g.nodes[s.node].IsExit())
  {
    ReloadedFacts(g, s);
    if g.nodes[s.node].IsExit() && Lookup(s.outcomes, s.node).Some? { LookupEntry(s.outcomes, s.node); }
    hide Reloaded;
    hide Lookup;
    DurableTidy(g, s, Reloaded(g, s));
  }

  lemma DurableTidy(g: Graph, s: State, r: State)
    requires Tidy(g, s) && r.outcomes == DurableAll(s.outcomes)
    ensures Tidy(g, r)
  {
    forall e | e in r.outcomes ensures e.0 in g.nodes && !g.nodes[e.0].IsExit() {
      var i :| 0 <= i < |r.outcomes| && r.outcomes[i] == e;
      assert s.outcomes[i] in s.outcomes;
    }
  }

  /** A restored state's first turn leaves a tidy state. */
  lemma FirstTurnTidy(g: Graph, r: State, y: Input)
    requires r.node in g.nodes && Tidy(g, r) && (r.pending.Some? <==> !g.nodes[r.node].IsExit())
    ensures var t := Iterate(g, r, Quiet(y));
      t.result.None? ==> Tidy(g, t.state) && t.state.pending.None?
  {
    hide Work;
    hide Route;
    hide Tidy;
    if r.steps >= MaxSteps(g) {
      StoppedAtBound(g, r, Quiet(y));
    } else {
      QuietWork(g, r, y);
      var h := Work(g, r, Quiet(y));
      RouteTables(g, h.state, h.phase, Quiet(y).prefer);
      TidyStays(g, r, Route(g, h.state, h.phase, Quiet(y).prefer).state);
    }
  }

  /** If it does not end there, the first turn leaves a resumed process as tidy as a fresh one. */
  lemma {:induction false} HopTidy(g: Graph, s: State, inp: Input, again: nat, prefer: NodeId)
    requires WellFormed(g) && s.node in g.nodes && Tidy(g, s)
    requires g.nodes[s.node].IsExit() || Lookup(s.outcomes, s.node).Some?
    ensures var t := Hop(g, s, inp, again, prefer);
      t.result.None? ==> Tidy(g, t.state) && t.state.pending.None?
    decreases again
  {
    hide Iterate;
    hide Tidy;
    hide Hop;
    hide Lookup;
    hide Lower;
    ReloadedTidy(g, s);
    HopStep(g, s, inp, again, prefer);
    var r := Reloaded(g, s);
    hide Reloaded;
    if again == 0 {
      FirstTurnTidy(g, r, inp.(prefer := prefer));
    } else if r.steps < MaxSteps(g) {
      TidyStays(g, r, r.(steps := r.steps + 1));
      HopTidy(g, if g.nodes[s.node].IsExit() then r.(steps := r.steps + 1) else s, inp, again - 1, prefer);
    }
  }

  /** One more death: the exit is saved again, one step later; elsewhere nothing has changed on disk. */
  lemma HopStep(g: Graph, s: State, inp: Input, again: nat, prefer: NodeId)
    requires s.node in g.nodes
    requires var r := Reloaded(g, s); r.pending.Some? <==> !g.nodes[s.node].IsExit()
    ensures var r := Reloaded(g, s);
      Hop(g, s, inp, again, prefer) ==
        if again == 0 then Iterate(g, r, Quiet(inp.(prefer := prefer)))
        else if r.steps >= MaxSteps(g) then Turn(r.(steps := r.steps + 1), Some(Exceeded(g)), [])
        else Hop(g, if g.nodes[s.node].IsExit() then r.(steps := r.steps + 1) else s, inp, again - 1, prefer)
  {
    hide Iterate;
    hide Work;
    var r := Reloaded(g, s);
    hide Reloaded;
    assert Quiet(inp).(prefer := prefer) == Quiet(inp.(prefer := prefer));
    if r.steps >= MaxSteps(g) { StoppedAtBound(g, r, Quiet(inp)); } else { QuietWork(g, r, inp); }
  }

  lemma TidyStays(g: Graph, s: State, t: State)
    requires Tidy(g, s) && (t.outcomes == s.outcomes || t.outcomes == [])
    ensures Tidy(g, t)
  {
  }

  lemma StoppedAtBound(g: Graph, s: State, inp: Input)
    requires s.node in g.nodes && s.steps >= MaxSteps(g)
    ensures Work(g, s, inp) == Halt(s.(steps := s.steps + 1), Exceeded(g), [])
  {
    hide Execute;
  }

  // ---------------------------------------------------------------------------
  // The theorem
  // ---------------------------------------------------------------------------

  lemma AgreesTransfers(g: Graph, a: State, b: State, lag: nat)
    requires Sim(a, b, lag) && Agrees(g, a)
    ensures Agrees(g, b)
  {
    DerivedDurable(g, a.outcomes);
    DerivedDurable(g, b.outcomes);
  }

  lemma SkipsAreRecorded(g: Graph, s: State, inp: Input)
    requires s.node in g.nodes
    ensures var h := Work(g, s, inp);
      h.Go? && h.phase.SkippedNode? ==>
        h.state.completed != [] && h.phase.outcome.failureReason == Some(PredecessorFailed)
  {
    hide Verdict;
    hide Snapshot;
    hide Assign;
    hide Populate;
    hide FaultText;
    hide AfterUpdates;
    hide FailedRefs;
  }

  /** From a turn that saves: dying there, any number of times, and reloading equals finishing the turn. */
  lemma KillSim(g: Graph, a: State, b: State, x: Input, y: Input, again: nat, q: NodeId, lag: nat)
    requires WellFormed(g) && a.node in g.nodes && Sim(a, b, lag) && Tidy(g, a) && Tidy(g, b)
    requires Alike(g, x, y) && SamePick(g, x.prefer, q)
    requires b.steps + 1 + DeathSteps(g, a.node, again) <= MaxSteps(g)
    requires var h := Work(g, a, x);
      h.Go? && Agrees(g, h.state) && (h.phase.SkippedNode? ==> SameMove(g, h.state, h.phase.outcome, x.prefer))
    ensures var hb := Work(g, b, y);
      hb.Go? && hb.state.node in g.nodes &&
      TurnSim(Iterate(g, a, x), Hop(g, hb.state, y, again, q), lag + DeathSteps(g, a.node, again))
  {
    hide Work;
    hide Route;
    hide Reloaded;
    hide Tidy;
    hide Agrees;
    hide Sim;
    hide SamePick;
    hide SameMove;
    hide Rejoins;
    hide Hop;
    SimNodes(a, b, lag);
    WorkSim(g, a, b, x, y, lag);
    WorkFrame(g, a, x);
    WorkFrame(g, b, y);
    WorkTidy(g, a, x);
    WorkTidy(g, b, y);
    SkipsAreRecorded(g, b, y);
    var ha, hb := Work(g, a, x), Work(g, b, y);
    SimNodes(ha.state, hb.state, lag);
    AgreesTransfers(g, ha.state, hb.state, lag);
    RouteSim(g, ha.state, hb.state, ha.phase, x.prefer, y.prefer, lag);
    RejoinsAlike(g, ha.state, hb.state, ha.phase, x.prefer, y.prefer, q, lag);
    HopSim(g, hb.state, hb.phase, y, again, q);
    TurnChain(Iterate(g, a, x), Route(g, hb.state, hb.phase, y.prefer), Hop(g, hb.state, y, again, q),
              lag, DeathSteps(g, a.node, again));
  }

  /** `r` is where a chain of processes gets to whose first one dies at the end of its segment. */
  ghost predicate Dies(g: Graph, s: State, segments: seq<Segment>, r: Turn, final: seq<Input>)
    requires WellFormed(g) && s.node in g.nodes && segments != [] && segments[0].inputs != []
  {
    var seg := segments[0];
    var last := seg.inputs[|seg.inputs| - 1];
    var t := Walk(g, s, seg.inputs[..|seg.inputs| - 1]);
    t.state.node in g.nodes &&
    (t.result.None? && Work(g, t.state, last).Go? ==> Resumes(g, Work(g, t.state, last).state, last, segments, r, final))
  }

  ghost predicate Resumes(g: Graph, saved: State, last: Input, segments: seq<Segment>, r: Turn, final: seq<Input>)
    requires WellFormed(g) && segments != []
  {
    saved.node in g.nodes &&
    var u := Hop(g, saved, last, segments[0].again, segments[0].prefer);
    && u.state.node in g.nodes
    && (u.result.Some? ==> r == u)
    && (u.result.None? ==> r == Interrupted(g, u.state, segments[1..], final))
  }

  /** What `Interrupted` does with its first segment when nothing ends before the kill. */
  lemma InterruptedStep(g: Graph, s: State, segments: seq<Segment>, final: seq<Input>)
    requires WellFormed(g) && s.node in g.nodes && segments != [] && segments[0].inputs != []
    ensures Dies(g, s, segments, Interrupted(g, s, segments, final), final)
  {
    hide Walk;
    hide Work;
    hide Hop;
    var seg := segments[0];
    var n := |seg.inputs| - 1;
    WalkInGraph(g, s, seg.inputs[..n]);
    var t := Walk(g, s, seg.inputs[..n]);
    if t.result.None? {
      WorkFrame(g, t.state, seg.inputs[n]);
      var h := Work(g, t.state, seg.inputs[n]);
      if h.Go? { HopInGraph(g, h.state, seg.inputs[n], seg.again, seg.prefer); }
    }
  }

  /** The uninterrupted walk, split at the same place. */
  lemma FlatStep(g: Graph, s: State, segments: seq<seq<Input>>, final: seq<Input>)
    requires WellFormed(g) && s.node in g.nodes && segments != [] && segments[0] != []
    ensures var seg := segments[0];
      var t := Walk(g, s, seg[..|seg| - 1]);
      t.state.node in g.nodes &&
      (t.result.None? ==>
        var next := Iterate(g, t.state, seg[|seg| - 1]);
        var whole := Walk(g, s, Flatten(segments) + final);
        && next.state.node in g.nodes
        && (next.result.Some? ==> whole.result == next.result && whole.state == next.state)
        && (next.result.None? ==>
              var rest := Walk(g, next.state, Flatten(segments[1..]) + final);
              whole.result == rest.result && whole.state == rest.state))
  {
    hide Iterate;
    var seg := segments[0];
    var n := |seg| - 1;
    var tail := Flatten(segments[1..]) + final;
    assert Flatten(segments) + final == seg[..n] + ([seg[n]] + tail);
    WalkSplit(g, s, seg[..n], [seg[n]] + tail);
    var t := Walk(g, s, seg[..n]);
    if t.result.None? {
      StaysInGraph(g, t.state, seg[n]);
      assert ([seg[n]] + tail)[1..] == tail;
    }
  }

  /** After a kill the first turn of the process that goes on leaves a tidy state. */
  lemma KilledTidy(g: Graph, s: State, inp: Input, again: nat, prefer: NodeId)
    requires WellFormed(g) && s.node in g.nodes && s.pending.None? && Tidy(g, s)
    requires Work(g, s, inp).Go?
    ensures var h := Work(g, s, inp);
      h.state.node in g.nodes &&
      var u := Hop(g, h.state, inp, again, prefer);
      u.result.None? ==> Tidy(g, u.state) && u.state.pending.None?
  {
    WorkFrame(g, s, inp);
    WorkTidy(g, s, inp);
    hide Work;
    hide Hop;
    hide Tidy;
    HopTidy(g, Work(g, s, inp).state, inp, again, prefer);
  }

  /** The uninterrupted walk counts at least one more step after the turn that the kill cut short. */
  lemma StepsLeft(g: Graph, s: State, segments: seq<seq<Input>>, final: seq<Input>)
    requires WellFormed(g) && s.node in g.nodes && segments != [] && segments[0] != []
    ensures var seg := segments[0];
      var t := Walk(g, s, seg[..|seg| - 1]);
      t.result.None? ==> t.state.steps + 1 <= Walk(g, s, Flatten(segments) + final).state.steps
  {
    hide Iterate;
    hide Walk;
    var seg := segments[0];
    var n := |seg| - 1;
    FlatStep(g, s, segments, final);
    var t := Walk(g, s, seg[..n]);
    if t.result.None? {
      IterateSteps(g, t.state, seg[n]);
      var next := Iterate(g, t.state, seg[n]);
      if next.result.None? { WalkSteps(g, next.state, Flatten(segments[1..]) + final); }
    }
  }

  /** The chain meets what the uninterrupted run meets, each process iterating sets in its own order. */
  ghost predicate Follows(g: Graph, plain: seq<seq<Input>>, segments: seq<Segment>) {
    && |plain| == |segments|
    && forall k :: 0 <= k < |plain| ==>
         && AllAlike(g, plain[k], segments[k].inputs)
         && (plain[k] != [] ==> SamePick(g, plain[k][|plain[k]| - 1].prefer, segments[k].prefer))
  }

  /** The steps that all deaths of a chain cost, along the run it interrupts. */
  ghost function ExtraSteps(g: Graph, s: State, plain: seq<seq<Input>>, segments: seq<Segment>): nat
    requires WellFormed(g) && s.node in g.nodes && |plain| == |segments|
    decreases |plain|
  {
    if plain == [] || plain[0] == [] then 0
    else
      var n := |plain[0]| - 1;
      WalkInGraph(g, s, plain[0][..n]);
      var t := Walk(g, s, plain[0][..n]);
      StaysInGraph(g, t.state, plain[0][n]);
      var next := Iterate(g, t.state, plain[0][n]);
      DeathSteps(g, t.state.node, segments[0].again) +
      if next.result.None? then ExtraSteps(g, next.state, plain[1..], segments[1..]) else 0
  }

  /**
   * Crash and resume. Kill the process at the last save of each segment, and any number of its successors at
   * the same place; the chain of processes and the uninterrupted run end with the same result or in the same
   * state, with one more counted step per death after a save, provided the uninterrupted run leaves room for
   * those steps below the bound and the processes' set orders break fan-in ties alike.
   */
  lemma {:induction false} CrashResume(g: Graph, a: State, b: State, plain: seq<seq<Input>>, final: seq<Input>,
                                       segments: seq<Segment>, last: seq<Input>, lag: nat)
    requires WellFormed(g) && a.node in g.nodes && Sim(a, b, lag) && Tidy(g, a) && Tidy(g, b)
    requires CleanKills(g, a, plain) && Follows(g, plain, segments) && AllAlike(g, final, last)
    requires Walk(g, a, Flatten(plain) + final).state.steps + lag + ExtraSteps(g, a, plain, segments) <= MaxSteps(g)
    ensures var whole, chain := Walk(g, a, Flatten(plain) + final), Interrupted(g, b, segments, last);
      && SameResult(whole.result, chain.result)
      && (whole.result.None? ==> Sim(whole.state, chain.state, lag + ExtraSteps(g, a, plain, segments)))
    decreases |plain|
  {
    hide Iterate;
    hide Work;
    hide Tidy;
    hide Hop;
    hide Alike;
    hide SamePick;
    hide SameMove;
    hide DeathSteps;
    if plain == [] {
      assert Flatten(plain) + final == final;
      WalkSim(g, a, b, final, last, lag);
    } else {
      var xs, seg := plain[0], segments[0];
      var n := |xs| - 1;
      var x, y := xs[n], seg.inputs[n];
      FlatStep(g, a, plain, final);
      StepsLeft(g, a, plain, final);
      InterruptedStep(g, b, segments, last);
      hide Walk;
      assert AllAlike(g, xs[..n], seg.inputs[..n]) && Alike(g, x, y);
      WalkSim(g, a, b, xs[..n], seg.inputs[..n], lag);
      WalkTidy(g, a, xs[..n]);
      WalkTidy(g, b, seg.inputs[..n]);
      var ta, tb := Walk(g, a, xs[..n]), Walk(g, b, seg.inputs[..n]);
      KillSim(g, ta.state, tb.state, x, y, seg.again, seg.prefer, lag);
      var next := Iterate(g, ta.state, x);
      if next.result.None? {
        IterateTidy(g, ta.state, x);
        KilledTidy(g, tb.state, y, seg.again, seg.prefer);
        var u := Hop(g, Work(g, tb.state, y).state, y, seg.again, seg.prefer);
        CrashResume(g, next.state, u.state, plain[1..], final, segments[1..], last,
                    lag + DeathSteps(g, ta.state.node, seg.again));
      }
    }
  }

  /** The same for a pipeline started fresh. */
  lemma FreshCrashResume(g: Graph, start: NodeId, ctx: Context, plain: seq<seq<Input>>, final: seq<Input>,
                         segments: seq<Segment>, last: seq<Input>)
    requires WellFormed(g) && start in g.nodes
    requires CleanKills(g, Fresh(start, ctx), plain) && Follows(g, plain, segments) && AllAlike(g, final, last)
    requires Walk(g, Fresh(start, ctx), Flatten(plain) + final).state.steps +
             ExtraSteps(g, Fresh(start, ctx), plain, segments) <= MaxSteps(g)
    ensures var whole, chain :=
        Walk(g, Fresh(start, ctx), Flatten(plain) + final), Interrupted(g, Fresh(start, ctx), segments, last);
      && SameResult(whole.result, chain.result)
      && (whole.result.None? ==>
            Sim(whole.state, chain.state, ExtraSteps(g, Fresh(start, ctx), plain, segments)))
  {
    hide CleanKills;
    hide Follows;
    hide AllAlike;
    hide Walk;
    hide Interrupted;
    hide ExtraSteps;
    CrashResume(g, Fresh(start, ctx), Fresh(start, ctx), plain, final, segments, last, 0);
  }
}
