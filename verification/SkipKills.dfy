/**
 * Kills right after the engine skipped a node. Live, a skip routes as a failure and ignores loop restarts; a
 * resumed process routes with the recorded SKIPPED outcome. Where that goes well, and runs in which it does not.
 */
module SkipKills {
  import opened Prelude
  import opened Outcomes
  import opened Graphs
  import opened Conditions
  import opened EdgeSelection
  import opened Checkpoints
  import opened EngineModel
  import opened Resume
  import opened Agreement
  import opened Kills

  // ---------------------------------------------------------------------------
  // Where both routings agree
  // ---------------------------------------------------------------------------

  /** The fallback to an unconditional edge after a skip can never fire: selection has already tried it. */
  lemma SkipFallbackIsDead(g: Graph, s: State, skip: Outcome)
    ensures SkipEdge(g, s, skip) == SelectEdge(g, s.node, SkipRouting(skip), s.ctx)
  {
    hide Judge;
    var plain := Unconditional(Outgoing(g, s.node));
    if plain != [] {
      UnconditionalMembers(Outgoing(g, s.node), Best(plain));
      FromMembers(g.edges, s.node, Best(plain));
      NoEdgeExactly(g, s.node, SkipRouting(skip), s.ctx);
      hide SelectEdge;
      assert !Refused(Best(plain), Judge(SkipRouting(skip), s.ctx));
    }
  }

  /** No condition on an edge out of `id` tells the one outcome from the other. */
  ghost predicate JudgedAlike(g: Graph, id: NodeId, x: Outcome, y: Outcome, ctx: Context) {
    forall e :: e in g.edges && e.source == id ==> Evaluate(e.condition, x, ctx) == Evaluate(e.condition, y, ctx)
  }

  lemma {:induction false} MatchingAlike(edges: seq<Edge>, p: EdgeTest, q: EdgeTest)
    requires forall e :: e in edges ==> p(e) == q(e)
    ensures Matching(edges, p) == Matching(edges, q)
  {
    if edges != [] {
      assert edges[0] in edges;
      MatchingAlike(edges[1..], p, q);
    }
  }

  /**
   * A guard on the skipped node's edges: if no condition there tells a failure from a skip, both routings select the
   * same edge, and a death is reproduced exactly when there is one and it does not restart the loop.
   */
  lemma SkipGuard(g: Graph, s: State, skip: Outcome, prefer: NodeId)
    requires s.node in g.nodes && !FansOut(g, s.node) && skip.preferredLabel.None? && skip.suggestedNextIds.None?
    requires JudgedAlike(g, s.node, SkipRouting(skip), skip, s.ctx)
    ensures var e := SelectEdge(g, s.node, skip, s.ctx);
      SkipEdge(g, s, skip) == e && (SameMove(g, s, skip, prefer) <==> e.Some? && !e.value.loopRestart)
  {
    hide Evaluate;
    hide FansOut;
    var edges := Outgoing(g, s.node);
    var p, q := Judge(SkipRouting(skip), s.ctx), Judge(skip, s.ctx);
    forall e | e in edges ensures p(e) == q(e) { FromMembers(g.edges, s.node, e); }
    MatchingAlike(edges, p, q);
    SkipFallbackIsDead(g, s, skip);
    hide SkipEdge;
    hide Matching;
    hide NormalizeLabel;
  }

  // ---------------------------------------------------------------------------
  // It does go wrong: a loop-restart edge after a skipped node
  // ---------------------------------------------------------------------------

  function Back(restart: bool): Edge {
    Edge("b", "a", "", "", 0, restart)
  }

  /** `b` refers to what `a` produces, and leads back to it, with or without a loop restart. */
  function TwoNodes(restart: bool): Graph {
    Graph(map["a" := Node("a", "box", "", false, false, false, false, 0, None, None, false),
              "b" := Node("b", "box", "", false, false, false, false, 0, None, None, false)],
          [Edge("a", "b", "", "", 0, false), Back(restart)], None, None, map["a" := {"k"}], map["b" := {"k"}], "digraph", "f")
  }

  const RestartGraph: Graph := TwoNodes(true)

  lemma OnlyBack(restart: bool, o: Outcome, ctx: Context)
    ensures SelectEdge(TwoNodes(restart), "b", o, ctx) == Some(Back(restart))
  {
    var g := TwoNodes(restart);
    assert g.edges[1] == Back(restart) && Back(restart) in g.edges;
    hide Judge;
    hide SelectEdge;
    assert !Refused(Back(restart), Judge(o, ctx));
    NoEdgeExactly(g, "b", o, ctx);
    SelectedEdgeIsUsable(g, "b", o, ctx);
  }

  /** In any state in which `b` has been skipped, live routing goes back to `a` and resumed routing restarts the loop. */
  lemma RestartDiffers(s: State, skip: Outcome, inp: Input)
    requires s.node == "b" && Tidy(RestartGraph, s) && s.pending.None? && Agrees(RestartGraph, s) && s.steps < 100
    requires Lookup(s.outcomes, "b") == Some(skip) && s.completed != [] && skip.failureReason == Some(PredecessorFailed)
    ensures !TurnSim(RouteSkipped(RestartGraph, s, skip), Iterate(RestartGraph, Reloaded(RestartGraph, s), Quiet(inp)), 1)
  {
    var g := RestartGraph;
    assert !g.nodes["b"].IsExit() by { assert |Lower("b")| == 1; }
    assert |g.nodes| == 2;
    OnlyBack(true, skip, s.ctx);
    OnlyBack(true, SkipRouting(skip), s.ctx);
    hide SelectEdge;
    hide TurnSim;
    assert !SameMove(g, s, skip, inp.prefer) by { assert !FansOut(g, "b"); }
    SkipKillExactly(g, s, skip, inp);
  }

  const Failed := Fresh("a", map[]).(completed := ["a"], outcomes := [("a", TimedOutOutcome)], failed := map["k" := "a"])

  lemma FirstWork(restart: bool)
    ensures var h := Work(TwoNodes(restart), Fresh("a", map[]), TimesOut);
      && h.Go? && h.phase == CompletedNode(TimedOutOutcome) && h.state.node == "a" && h.state.pending.None?
      && h.state.steps == 1 && h.state.completed == Failed.completed && h.state.outcomes == Failed.outcomes
      && h.state.failed == Populate(TwoNodes(restart), map[], "a") && h.events != []
  {
    hide Verdict;
    hide Snapshot;
    hide AfterUpdates;
    hide ShownContext;
    hide Populate;
    var g, s0 := TwoNodes(restart), Fresh("a", map[]);
    assert !g.nodes["a"].IsExit() by { assert |Lower("a")| == 1; }
    assert FailedRefs(g, s0.(steps := 1)) == {};
    hide FailedRefs;
    LoopVerdicts();
    assert |g.nodes| == 2;
  }

  lemma FirstRoute(restart: bool, s: State, o: Outcome)
    requires s.node == "a"
    ensures Route(TwoNodes(restart), s, CompletedNode(o), "") == Turn(s.(node := "b"), None, [])
  {
    hide SelectEdge;
    OnlyForward(restart, o, s.ctx);
    assert !FansOut(TwoNodes(restart), "a");
  }

  /** `a` times out and its edge leads to `b`. */
  lemma FirstFails(restart: bool)
    ensures var t := Walk(TwoNodes(restart), Fresh("a", map[]), [TimesOut]);
      && t.result.None? && t.state.node == "b" && t.state.pending.None? && t.state.steps == 1
      && t.state.completed == Failed.completed && t.state.outcomes == Failed.outcomes && t.state.failed == Failed.failed
  {
    hide Work;
    hide Route;
    var g, s0 := TwoNodes(restart), Fresh("a", map[]);
    FirstWork(restart);
    FirstRoute(restart, Work(g, s0, TimesOut).state, TimedOutOutcome);
    assert Populate(g, map[], "a") == map["k" := "a"] by { assert OutputsOf(g, "a") == {"k"}; }
    var t1 := Iterate(g, s0, TimesOut);
    hide Iterate;
    assert [TimesOut][1..] == [] && Walk(g, t1.state, []) == Turn(t1.state, None, []);
  }

  lemma OnlyForward(restart: bool, o: Outcome, ctx: Context)
    ensures SelectEdge(TwoNodes(restart), "a", o, ctx) == Some(Edge("a", "b", "", "", 0, false))
  {
    var g := TwoNodes(restart);
    var e := Edge("a", "b", "", "", 0, false);
    assert g.edges[0] == e && e in g.edges;
    hide Judge;
    hide SelectEdge;
    assert !Refused(e, Judge(o, ctx));
    NoEdgeExactly(g, "a", o, ctx);
    SelectedEdgeIsUsable(g, "a", o, ctx);
  }

  /** `b` refers to what `a` was to produce, and is skipped. */
  lemma ThenSkipped(restart: bool, s: State, inp: Input)
    requires s.node == "b" && s.pending.None? && s.steps == 1 && inp == Succeeds
    requires s.completed == Failed.completed && s.outcomes == Failed.outcomes && s.failed == Failed.failed
    ensures var h := Work(TwoNodes(restart), s, inp);
      && h.Go? && h.phase.SkippedNode? && h.phase.outcome.failureReason == Some(PredecessorFailed)
      && h.phase.outcome.status.Skipped?
      && h.state.node == "b" && h.state.pending.None? && h.state.steps == 2 && h.state.completed != []
      && h.state.outcomes == Failed.outcomes + [("b", h.phase.outcome)] && h.state.failed == Failed.failed
  {
    hide Snapshot;
    hide Execute;
    hide SkipOutcome;
    hide SkipRecorded;
    var g := TwoNodes(restart);
    var s1 := s.(steps := 2);
    assert !g.nodes["b"].IsExit() by { assert |Lower("b")| == 1; }
    assert "k" in FailedRefs(g, s1);
    hide FailedRefs;
    assert |g.nodes| == 2;
    SkipOfB(restart, s1);
  }

  lemma SkipOfB(restart: bool, s: State)
    requires s.node == "b" && s.completed == Failed.completed && s.outcomes == Failed.outcomes && s.failed == Failed.failed
    ensures var skip := SkipOutcome(TwoNodes(restart), s);
      var t := SkipRecorded(TwoNodes(restart), s, skip);
      && skip.status.Skipped? && skip.failureReason == Some(PredecessorFailed)
      && t.node == "b" && t.pending == s.pending && t.steps == s.steps && t.completed != []
      && t.outcomes == Failed.outcomes + [("b", skip)] && t.failed == Failed.failed
  {
    var skip := SkipOutcome(TwoNodes(restart), s);
    assert OutputsOf(TwoNodes(restart), "b") == {};
    assert !Has(s.outcomes, "b");
    AssignFresh(s.outcomes, "b", skip);
  }

  /**
   * A run that gets there: `a` times out, `b` is skipped for it, the process dies at that save. Live, the skip goes
   * back to `a` and keeps everything; whatever the resumed process meets, it restarts the loop and forgets it all.
   */
  lemma SkipKillDiffers(inp: Input)
    ensures WellFormed(RestartGraph)
    ensures var t := Walk(RestartGraph, Fresh("a", map[]), [TimesOut]);
      t.result.None? && t.state.node in RestartGraph.nodes &&
      var h := Work(RestartGraph, t.state, Succeeds);
      h.Go? && h.phase.SkippedNode? && h.state.node in RestartGraph.nodes &&
      !TurnSim(RouteSkipped(RestartGraph, h.state, h.phase.outcome),
               Iterate(RestartGraph, Reloaded(RestartGraph, h.state), Quiet(inp)), 1)
  {
    hide Work;
    hide TurnSim;
    hide Iterate;
    hide Reloaded;
    hide RouteSkipped;
    FirstFails(true);
    var s := Walk(RestartGraph, Fresh("a", map[]), [TimesOut]).state;
    hide Walk;
    ThenSkipped(true, s, Succeeds);
    var h := Work(RestartGraph, s, Succeeds);
    SkippedState(true, h.state, h.phase.outcome);
    RestartDiffers(h.state, h.phase.outcome, inp);
  }

  lemma SkippedState(restart: bool, s: State, skip: Outcome)
    requires s.outcomes == Failed.outcomes + [("b", skip)] && s.failed == Failed.failed && skip.status.Skipped?
    ensures Tidy(TwoNodes(restart), s) && Agrees(TwoNodes(restart), s) && Lookup(s.outcomes, "b") == Some(skip)
  {
    var g := TwoNodes(restart);
    assert !g.nodes["b"].IsExit() by { assert |Lower("b")| == 1; }
    assert !g.nodes["a"].IsExit() by { assert |Lower("a")| == 1; }
    assert s.outcomes[..1] == Failed.outcomes && Failed.outcomes[..0] == [];
    assert OutputsOf(g, "a") == {"k"} && OutputsOf(g, "b") == {};
    assert Derived(g, []) == map[];
    assert Derived(g, Failed.outcomes) == map["k" := "a"];
    LookupFirst(s.outcomes, "b", 1);
  }

  /** Without the loop restart both routings of the skip go back to `a`. */
  lemma GoesBack(s: State)
    requires s.node == "b" && s.pending.None? && s.steps == 1
    requires s.completed == Failed.completed && s.outcomes == Failed.outcomes && s.failed == Failed.failed
    ensures var g := TwoNodes(false);
      var h := Work(g, s, Succeeds);
      && h.Go? && h.phase.SkippedNode? && SameMove(g, h.state, h.phase.outcome, "")
      && Iterate(g, s, Succeeds) == Turn(h.state.(node := "a"), None, h.events)
      && h.state.steps == 2 && |h.events| == 2 && h.events[0].Recorded? && h.events[0].node == "b" && !h.events[0].ran
      && h.events[1].Saved?
  {
    hide Work;
    hide SelectEdge;
    hide SkipEdge;
    hide Snapshot;
    var g := TwoNodes(false);
    ThenSkipped(false, s, Succeeds);
    WorkEvents(g, s, Succeeds);
    var h := Work(g, s, Succeeds);
    OnlyBack(false, h.phase.outcome, h.state.ctx);
    OnlyBack(false, SkipRouting(h.phase.outcome), h.state.ctx);
    SkipFallbackIsDead(g, h.state, h.phase.outcome);
    assert !FansOut(g, "b");
  }

  lemma FirstEvents()
    ensures var e := Walk(TwoNodes(false), Fresh("a", map[]), [TimesOut]).events;
      |e| == 3 && !e[0].Recorded? && !e[2].Recorded? && e[1] == Recorded("a", TimedOutOutcome, true)
  {
    hide Work;
    hide Route;
    hide Snapshot;
    var g, s0 := TwoNodes(false), Fresh("a", map[]);
    FirstWork(false);
    WorkEvents(g, s0, TimesOut);
    var h := Work(g, s0, TimesOut);
    FirstRoute(false, h.state, TimedOutOutcome);
    var t1 := Iterate(g, s0, TimesOut);
    assert [TimesOut][1..] == [] && Walk(g, t1.state, []) == Turn(t1.state, None, []);
  }

  lemma OrderlyFive(trace: seq<Event>)
    requires |trace| == 5 && !trace[0].Recorded? && !trace[2].Recorded? && !trace[4].Recorded?
    requires trace[1] == Recorded("a", TimedOutOutcome, true)
    requires trace[3].Recorded? && trace[3].node == "b" && !trace[3].ran
    ensures Orderly(trace)
  {
    assert "a"[0] != "b"[0];
  }

  /** The whole run: `a` fails, `b` is skipped, back to `a`. */
  lemma RunWithSkip()
    ensures var g, s0 := TwoNodes(false), Fresh("a", map[]);
      WellFormed(g) &&
      var t1 := Walk(g, s0, [TimesOut]);
      t1.result.None? && t1.state.node == "b" &&
      var h, t2 := Work(g, t1.state, Succeeds), Iterate(g, t1.state, Succeeds);
      && h.Go? && h.phase.SkippedNode? && SameMove(g, h.state, h.phase.outcome, "")
      && t2.result.None? && t2.state.node == "a" && t2.state.steps == 2 && Orderly(t1.events + t2.events)
  {
    hide Work;
    hide Iterate;
    hide Orderly;
    hide SameMove;
    hide Walk;
    var g, s0 := TwoNodes(false), Fresh("a", map[]);
    FirstFails(false);
    FirstEvents();
    var t1 := Walk(g, s0, [TimesOut]);
    GoesBack(t1.state);
    OrderlyFive(t1.events + Iterate(g, t1.state, Succeeds).events);
  }

  /**
   * The crash theorem speaks of such deaths too: where the edge back does not restart the loop, dying at the save of
   * the skip, any number of times, is one of its kills.
   */
  lemma SkipKillIsClean(again: nat)
    ensures WellFormed(TwoNodes(false))
    ensures OrderlyKills(TwoNodes(false), Fresh("a", map[]), [[TimesOut, Succeeds]], [], [Segment([TimesOut, Succeeds], again, "")])
  {
    hide Work;
    hide Iterate;
    hide Orderly;
    hide SameMove;
    hide Route;
    hide WellFormed;
    RunWithSkip();
    var g, s0, inputs := TwoNodes(false), Fresh("a", map[]), [TimesOut, Succeeds];
    var t1 := Walk(g, s0, [TimesOut]);
    var t2 := Iterate(g, t1.state, Succeeds);
    var plain, segments := [inputs], [Segment(inputs, again, "")];
    FlatEvents(g, s0, plain, []);
    FlatStep(g, s0, plain, []);
    assert plain[1..] == [] && segments[1..] == [] && inputs[..1] == [TimesOut];
    assert !g.nodes["b"].IsExit() by { assert |Lower("b")| == 1; }
    assert |g.nodes| == 2;
    hide TwoNodes;
    assert KillsAtSaves(g, t2.state, []) && ExtraSteps(g, t2.state, [], []) == 0;
    assert Flatten([]) + [] == [] && Walk(g, t2.state, []) == Turn(t2.state, None, []);
    hide Walk;
    assert t1.events + t2.events + [] == t1.events + t2.events;
  }

  // ---------------------------------------------------------------------------
  // The one-shot fidelity cap of a resumed process never reaches a checkpoint
  // ---------------------------------------------------------------------------

  /** No handler writes the engine's private key. */
  ghost predicate CapFree(g: Graph, inputs: seq<Input>) {
    forall i, n :: 0 <= i < |inputs| && n in g.nodes && Verdict(g.nodes[n], inputs[i]).Some? ==>
      CapKey !in Verdict(g.nodes[n], inputs[i]).value.contextUpdates.Or(map[])
  }

  lemma CompletedCapFree(g: Graph, s: State, o: Outcome)
    requires CapKey !in o.contextUpdates.Or(map[])
    ensures CapKey !in Completed(g, s, o).ctx
  {
    hide Assign;
    hide Populate;
    hide StatusText;
    assert CapKey[0] == 'r' && "outcome"[0] == 'o' && "preferred_label"[0] == 'p';
  }

  /** What the first half leaves in the context. */
  lemma WorkContext(g: Graph, s: State, inp: Input)
    requires s.node in g.nodes
    ensures var h := Work(g, s, inp);
      h.Go? ==>
        h.state.ctx == s.ctx ||
        (Verdict(g.nodes[s.node], inp).Some? &&
         exists e: State :: h.state.ctx == Completed(g, e, Verdict(g.nodes[s.node], inp).value).ctx)
  {
    hide Verdict;
    hide Snapshot;
    hide Assign;
    hide Populate;
    hide FaultText;
    hide FailedRefs;
    hide SkipOutcome;
    hide AfterUpdates;
    hide Entered;
    hide Completed;
  }

  lemma WorkCapFree(g: Graph, s: State, inp: Input)
    requires s.node in g.nodes && CapKey !in s.ctx && CapFree(g, [inp])
    ensures var h := Work(g, s, inp); h.Go? ==> CapKey !in h.state.ctx
  {
    WorkContext(g, s, inp);
    hide Work;
    hide Verdict;
    hide Completed;
    var h := Work(g, s, inp);
    if h.Go? && h.state.ctx != s.ctx {
      var o := Verdict(g.nodes[s.node], inp).value;
      assert [inp][0] == inp && CapKey !in Verdict(g.nodes[s.node], [inp][0]).value.contextUpdates.Or(map[]);
      var e: State :| h.state.ctx == Completed(g, e, o).ctx;
      CompletedCapFree(g, e, o);
    }
  }

  lemma RouteCapFree(g: Graph, s: State, phase: Phase, prefer: NodeId)
    requires s.node in g.nodes && CapKey !in s.ctx
    ensures CapKey !in Route(g, s, phase, prefer).state.ctx
  {
    hide GateJump;
    hide CheckGoalGates;
    hide GateRetryTarget;
    hide SkipEdge;
    hide SelectEdge;
    hide FailureRetryTarget;
    hide FansOut;
    hide Terminate;
    hide FanIn.FanInNode;
    hide Decimal;
    hide Outgoing;
    hide Targets;
    assert CapKey[0] == 'r';
    assert "iteration"[0] == 'i' && "preferred_label"[0] == 'p' && "loop_count"[0] == 'l';
  }

  ghost predicate SavesCapFree(saves: seq<Checkpoint>) {
    forall c :: c in saves ==> CapKey !in c.context
  }

  lemma {:induction false} WalkCapFree(g: Graph, s: State, inputs: seq<Input>)
    requires WellFormed(g) && s.node in g.nodes && CapKey !in s.ctx && CapFree(g, inputs)
    ensures SavesCapFree(Saves(Walk(g, s, inputs).events))
    decreases |inputs|
  {
    hide Work;
    hide Route;
    hide Verdict;
    if inputs != [] {
      var inp := inputs[0];
      StaysInGraph(g, s, inp);
      WorkCapFree(g, s, inp);
      WorkFrame(g, s, inp);
      WorkWrites(g, s, inp);
      var h := Work(g, s, inp);
      var t := Iterate(g, s, inp);
      if h.Go? {
        RouteCapFree(g, h.state, h.phase, inp.prefer);
        RouteWrites(g, h.state, h.phase, inp.prefer);
        SavesConcat(h.events, Route(g, h.state, h.phase, inp.prefer).events);
        SnapshotContext(g, h.state);
      }
      hide Snapshot;
      assert SavesCapFree(Saves(t.events));
      if t.result.None? {
        assert CapFree(g, inputs[1..]);
        WalkCapFree(g, t.state, inputs[1..]);
        SavesConcat(t.events, Walk(g, t.state, inputs[1..]).events);
      }
    }
  }

  lemma SnapshotContext(g: Graph, s: State)
    ensures Snapshot(g, s).context == s.ctx
  {
  }

  /** Over any chain of kills and resumes no checkpoint carries the cap, though every resumed process applies it once. */
  lemma {:induction false} CapNeverSaved(g: Graph, s: State, chain: seq<Process>)
    requires WellFormed(g) && s.node in g.nodes && s.steps <= MaxSteps(g)
    requires CapKey !in s.ctx && CapFree(g, AllInputs(chain))
    ensures SavesCapFree(AllSaves(g, s, chain))
    decreases |chain|
  {
    hide Walk;
    hide Verdict;
    if chain != [] {
      var inputs, rest := chain[0].inputs, AllInputs(chain[1..]);
      assert forall i :: 0 <= i < |inputs| ==> (inputs + rest)[i] == inputs[i];
      assert CapFree(g, inputs);
      assert forall i :: 0 <= i < |rest| ==> (inputs + rest)[|inputs| + i] == rest[i];
      assert CapFree(g, rest);
      WalkCapFree(g, s, inputs);
      WalkClimbs(g, s, inputs);
      var saves := Saves(Walk(g, s, inputs).events);
      NextFacts(g, s, saves);
      NextCapFree(g, s, saves);
      hide Next;
      CapNeverSaved(g, Next(g, s, saves), chain[1..]);
    }
  }

  lemma NextCapFree(g: Graph, s: State, saves: seq<Checkpoint>)
    requires CapKey !in s.ctx && SavesCapFree(saves) && forall c :: c in saves ==> Genuine(g, c)
    ensures CapKey !in Next(g, s, saves).ctx
  {
    if saves != [] {
      assert saves[|saves| - 1] in saves;
      GenuineFacts(g, saves[|saves| - 1]);
    }
  }
}
