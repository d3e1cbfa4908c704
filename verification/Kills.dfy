/**
 * Termination across kills: however often a pipeline's process dies and is resumed, the saved
 * step counts climb strictly towards one fixed bound.
 */
module Kills {
  import opened Prelude
  import opened Outcomes
  import opened Graphs
  import opened Checkpoints
  import opened EngineModel

  function Saves(events: seq<Event>): seq<Checkpoint> {
    if events == [] then []
    else (if events[0].Saved? then [events[0].checkpoint] else []) + Saves(events[1..])
  }

  /** How many node executions began. */
  function Runs(events: seq<Event>): nat {
    if events == [] then 0 else (if events[0].Ran? then 1 else 0) + Runs(events[1..])
  }

  lemma {:induction false} SavesConcat(a: seq<Event>, b: seq<Event>)
    ensures Saves(a + b) == Saves(a) + Saves(b)
    ensures Runs(a + b) == Runs(a) + Runs(b)
  {
    if a == [] {
      assert a + b == b;
    } else {
      assert (a + b)[1..] == a[1..] + b && (a + b)[0] == a[0];
      SavesConcat(a[1..], b);
      var head := if a[0].Saved? then [a[0].checkpoint] else [];
      assert head + (Saves(a[1..]) + Saves(b)) == head + Saves(a[1..]) + Saves(b);
    }
  }

  /** A checkpoint the engine writes for `g`, no later than step `steps`. */
  ghost predicate Genuine(g: Graph, c: Checkpoint) {
    exists s: State :: s.node in g.nodes && c == Snapshot(g, s)
  }

  lemma GenuineFacts(g: Graph, c: Checkpoint)
    requires Genuine(g, c)
    ensures ValidRecords(c.nodeOutcomes) && c.currentNode in g.nodes
    ensures c.schemaVersion == SCHEMA_VERSION && c.runState == IN_FLIGHT
  {
    var s: State :| s.node in g.nodes && c == Snapshot(g, s);
    forall i | 0 <= i < |s.outcomes| ensures ValidRecord(c.nodeOutcomes[i].1) {
      RecordRoundTrip(s.outcomes[i].1);
    }
  }

  /** What one first half writes: at most one checkpoint, of the state it ends in. */
  lemma WorkWrites(g: Graph, s: State, inp: Input)
    requires s.node in g.nodes
    ensures var h := Work(g, s, inp);
      && (h.Halt? ==> Saves(h.events) == [] && Runs(h.events) <= 1)
      && (h.Go? ==> (Saves(h.events) == [Snapshot(g, h.state)] && Runs(h.events) <= 1)
                    || (Saves(h.events) == [] && Runs(h.events) == 0))
  {
    hide Work;
    hide Snapshot;
    WorkEvents(g, s, inp);
    var e := Work(g, s, inp).events;
    SavesOfThree(e);
  }

  lemma SavesOfThree(e: seq<Event>)
    ensures |e| == 0 ==> Saves(e) == [] && Runs(e) == 0
    ensures |e| == 1 && e[0].Ran? ==> Saves(e) == [] && Runs(e) == 1
    ensures |e| == 1 && e[0].Saved? ==> Saves(e) == [e[0].checkpoint] && Runs(e) == 0
    ensures |e| == 2 && e[0].Recorded? && e[1].Saved? ==> Saves(e) == [e[1].checkpoint] && Runs(e) == 0
    ensures |e| == 3 && e[0].Ran? && e[1].Recorded? && e[2].Saved? ==> Saves(e) == [e[2].checkpoint] && Runs(e) == 1
  {
    if |e| >= 1 { assert Saves(e[1..][|e| - 1..]) == [] && Runs(e[1..][|e| - 1..]) == 0; }
    if |e| == 2 { assert e[1..] == [e[1]]; }
    if |e| == 3 {
      assert e[1..] == [e[1], e[2]] && e[1..][1..] == [e[2]];
    }
  }

  lemma RouteWrites(g: Graph, s: State, phase: Phase, prefer: NodeId)
    requires s.node in g.nodes
    ensures var t := Route(g, s, phase, prefer);
      && Saves(t.events) == [] && Runs(t.events) == 0 && t.state.steps == s.steps
  {
    RouteFrame(g, s, phase, prefer);
    hide Route;
    assert Saves([]) == [] && Runs([]) == 0;
    assert Saves([Cleared]) == [] && Runs([Cleared]) == 0 by { assert [Cleared][1..] == []; }
  }

  /** All step counts lie in `(low, high]` and climb strictly. */
  ghost predicate Climbing(saves: seq<Checkpoint>, low: nat, high: nat) {
    && (forall i :: 0 <= i < |saves| ==> low < saves[i].counters.steps <= high)
    && (forall i, j :: 0 <= i < j < |saves| ==> saves[i].counters.steps < saves[j].counters.steps)
  }

  lemma ClimbingConcat(a: seq<Checkpoint>, b: seq<Checkpoint>, low: nat, mid: nat, high: nat)
    requires Climbing(a, low, mid) && Climbing(b, mid, high) && low <= mid <= high
    ensures Climbing(a + b, low, high)
  {
  }

  /** Strictly climbing counts in `(low, high]` are at most `high - low` many. */
  lemma {:induction false} ClimbingBound(saves: seq<Checkpoint>, low: nat, high: nat)
    requires Climbing(saves, low, high) && low <= high
    ensures |saves| <= high - low
  {
    if saves != [] {
      var n := |saves| - 1;
      var top := saves[n].counters.steps;
      ClimbingBound(saves[..n], low, top - 1);
    }
  }

  /** One process: its saves climb from its starting step count, and all but one execution is saved. */
  lemma {:induction false} WalkClimbs(g: Graph, s: State, inputs: seq<Input>)
    requires WellFormed(g) && s.node in g.nodes && s.steps <= MaxSteps(g)
    ensures var t := Walk(g, s, inputs);
      && Climbing(Saves(t.events), s.steps, MaxSteps(g))
      && (forall c :: c in Saves(t.events) ==> Genuine(g, c))
      && Runs(t.events) <= |Saves(t.events)| + (if t.result.Some? then 1 else 0)
    decreases |inputs|
  {
    hide Iterate;
    hide Climbing;
    hide Genuine;
    if inputs == [] {
      NothingClimbs(s.steps, MaxSteps(g));
    } else {
      var t := Iterate(g, s, inputs[0]);
      StaysInGraph(g, s, inputs[0]);
      TurnClimbs(g, s, inputs[0]);
      if t.result.None? {
        WalkClimbs(g, t.state, inputs[1..]);
        var rest := Walk(g, t.state, inputs[1..]);
        hide Walk;
        SavesConcat(t.events, rest.events);
        ClimbingConcat(Saves(t.events), Saves(rest.events), s.steps, t.state.steps, MaxSteps(g));
      } else {
        ClimbingUpTo(Saves(t.events), s.steps, t.state.steps, MaxSteps(g));
      }
    }
  }

  lemma NothingClimbs(low: nat, high: nat)
    ensures Climbing([], low, high) && Saves([]) == [] && Runs([]) == 0
  {
  }

  lemma ClimbingUpTo(saves: seq<Checkpoint>, low: nat, mid: nat, high: nat)
    requires Climbing(saves, low, mid) && (saves == [] || mid <= high)
    ensures Climbing(saves, low, high)
  {
  }

  /** One turn: at most one save, of its step. */
  lemma TurnClimbs(g: Graph, s: State, inp: Input)
    requires s.node in g.nodes
    ensures var t := Iterate(g, s, inp);
      && Climbing(Saves(t.events), s.steps, t.state.steps) && (t.result.None? || Saves(t.events) != [] ==> t.state.steps <= MaxSteps(g))
      && s.steps <= t.state.steps
      && (forall c :: c in Saves(t.events) ==> Genuine(g, c))
      && Runs(t.events) <= |Saves(t.events)| + (if t.result.Some? then 1 else 0)
  {
    hide Work;
    hide Route;
    hide Snapshot;
    WorkFrame(g, s, inp);
    WorkWrites(g, s, inp);
    var h := Work(g, s, inp);
    SnapshotKeepsSteps(g, h.state);
    if h.Go? {
      var r := Route(g, h.state, h.phase, inp.prefer);
      RouteWrites(g, h.state, h.phase, inp.prefer);
      SavesConcat(h.events, r.events);
    }
  }

  lemma SnapshotKeepsSteps(g: Graph, s: State)
    ensures Snapshot(g, s).counters.steps == s.steps
  {
  }

  // ---------------------------------------------------------------------------
  // A chain of processes on one run directory
  // ---------------------------------------------------------------------------

  /** One process: the turns it got through, and whether it died inside one more node's execution. */
  datatype Process = Process(inputs: seq<Input>, diedInside: bool)

  /** Where the next process starts: the last checkpoint on disk, or the same place again. */
  ghost function Next(g: Graph, s: State, saves: seq<Checkpoint>): State
    requires forall c :: c in saves ==> Genuine(g, c)
  {
    if saves == [] then s
    else
      var last := saves[|saves| - 1];
      GenuineFacts(g, last);
      Restore(g, last)
  }

  /** Every checkpoint written by a chain of processes, in order. */
  ghost function AllSaves(g: Graph, s: State, chain: seq<Process>): seq<Checkpoint>
    requires WellFormed(g) && s.node in g.nodes && s.steps <= MaxSteps(g)
    decreases |chain|
  {
    if chain == [] then []
    else
      var saves := Saves(Walk(g, s, chain[0].inputs).events);
      WalkClimbs(g, s, chain[0].inputs);
      NextFacts(g, s, saves);
      saves + AllSaves(g, Next(g, s, saves), chain[1..])
  }

  /** Every node execution begun by a chain of processes. */
  ghost function AllRuns(g: Graph, s: State, chain: seq<Process>): nat
    requires WellFormed(g) && s.node in g.nodes && s.steps <= MaxSteps(g)
    decreases |chain|
  {
    if chain == [] then 0
    else
      var t := Walk(g, s, chain[0].inputs);
      var saves := Saves(t.events);
      WalkClimbs(g, s, chain[0].inputs);
      NextFacts(g, s, saves);
      Runs(t.events) + (if t.result.None? && chain[0].diedInside then 1 else 0) +
      AllRuns(g, Next(g, s, saves), chain[1..])
  }

  /** Where the process after a whole chain starts. */
  ghost function AfterChain(g: Graph, s: State, chain: seq<Process>): (r: State)
    requires WellFormed(g) && s.node in g.nodes && s.steps <= MaxSteps(g)
    ensures r.node in g.nodes && r.steps <= MaxSteps(g)
    decreases |chain|
  {
    if chain == [] then s
    else
      var saves := Saves(Walk(g, s, chain[0].inputs).events);
      WalkClimbs(g, s, chain[0].inputs);
      NextFacts(g, s, saves);
      AfterChain(g, Next(g, s, saves), chain[1..])
  }

  /** Everything the world contributed to a chain. */
  function AllInputs(chain: seq<Process>): seq<Input> {
    if chain == [] then [] else chain[0].inputs + AllInputs(chain[1..])
  }

  lemma NextFacts(g: Graph, s: State, saves: seq<Checkpoint>)
    requires s.node in g.nodes && s.steps <= MaxSteps(g)
    requires Climbing(saves, s.steps, MaxSteps(g)) && forall c :: c in saves ==> Genuine(g, c)
    ensures var n := Next(g, s, saves);
      && n.node in g.nodes && s.steps <= n.steps <= MaxSteps(g)
      && Climbing(saves, s.steps, n.steps)
  {
    if saves != [] {
      var last := saves[|saves| - 1];
      GenuineFacts(g, last);
    }
  }

  /** Over a whole chain the saved step counts still climb strictly, within one bound. */
  lemma {:induction false} ChainClimbs(g: Graph, s: State, chain: seq<Process>)
    requires WellFormed(g) && s.node in g.nodes && s.steps <= MaxSteps(g)
    ensures Climbing(AllSaves(g, s, chain), s.steps, MaxSteps(g))
    ensures AllRuns(g, s, chain) <= |AllSaves(g, s, chain)| + |chain|
    decreases |chain|
  {
    hide Walk;
    hide Next;
    if chain != [] {
      var t := Walk(g, s, chain[0].inputs);
      var saves := Saves(t.events);
      WalkClimbs(g, s, chain[0].inputs);
      NextFacts(g, s, saves);
      var n := Next(g, s, saves);
      ChainClimbs(g, n, chain[1..]);
      ClimbingConcat(saves, AllSaves(g, n, chain[1..]), s.steps, n.steps, MaxSteps(g));
    }
  }

  /** However many processes, and whatever they meet: the saves and executions of one run are bounded. */
  lemma KillsCannotRefreshTheBound(g: Graph, start: NodeId, ctx: Context, chain: seq<Process>)
    requires WellFormed(g) && start in g.nodes
    ensures |AllSaves(g, Fresh(start, ctx), chain)| <= 50 * |g.nodes|
    ensures AllRuns(g, Fresh(start, ctx), chain) <= 50 * |g.nodes| + |chain|
  {
    var s := Fresh(start, ctx);
    ChainClimbs(g, s, chain);
    ClimbingBound(AllSaves(g, s, chain), 0, MaxSteps(g));
  }

  /** Every process ends: a walk cannot outlast the step bound, whatever it meets and however often loops restart. */
  lemma {:induction false} WalkEnds(g: Graph, s: State, inputs: seq<Input>)
    requires WellFormed(g) && s.node in g.nodes && s.steps <= MaxSteps(g) && s.steps + |inputs| > MaxSteps(g)
    ensures Walk(g, s, inputs).result.Some?
    decreases |inputs|
  {
    hide Work;
    hide Route;
    var inp := inputs[0];
    WorkFrame(g, s, inp);
    StaysInGraph(g, s, inp);
    var h := Work(g, s, inp);
    if h.Go? {
      RouteFrame(g, h.state, h.phase, inp.prefer);
      var t := Iterate(g, s, inp);
      if t.result.None? { WalkEnds(g, t.state, inputs[1..]); }
    }
  }

  // ---------------------------------------------------------------------------
  // The two retry budgets
  // ---------------------------------------------------------------------------

  ghost predicate BudgetsOk(s: State) {
    s.gateRetries <= MAX_RETRIES && s.routeRetries <= MAX_RETRIES
  }

  /** Both budgets stay within 0..50 for the whole walk, loop restarts included. */
  lemma {:induction false} BudgetsHold(g: Graph, s: State, inputs: seq<Input>)
    requires WellFormed(g) && s.node in g.nodes && BudgetsOk(s)
    ensures BudgetsOk(Walk(g, s, inputs).state)
    decreases |inputs|
  {
    hide Work;
    hide Snapshot;
    if inputs != [] {
      WorkFrame(g, s, inputs[0]);
      StaysInGraph(g, s, inputs[0]);
      var h := Work(g, s, inputs[0]);
      if h.Go? { RouteBudgets(g, h.state, h.phase, inputs[0].prefer); }
      hide Route;
      var t := Iterate(g, s, inputs[0]);
      if t.result.None? {
        BudgetsHold(g, t.state, inputs[1..]);
      }
    }
  }

  lemma RouteBudgets(g: Graph, s: State, phase: Phase, prefer: NodeId)
    requires s.node in g.nodes && BudgetsOk(s)
    ensures BudgetsOk(Route(g, s, phase, prefer).state)
  {
    hide CheckGoalGates;
    hide SkipEdge;
    hide EdgeSelection.SelectEdge;
    hide FanIn.FanInNode;
    hide Decimal;
  }
}
