/** What every walk tells handlers: how often their node was visited, and the one-shot fidelity cap of a resume. */
module WalkLaws {
  import opened Prelude
  import opened Outcomes
  import opened Graphs
  import opened EngineModel
  import opened SkipKills

  // ---------------------------------------------------------------------------
  // Visits
  // ---------------------------------------------------------------------------

  /** How often `id` was executed. */
  function RunsOf(events: seq<Event>, id: NodeId): nat {
    if events == [] then 0
    else (if events[0].Ran? && events[0].node == id then 1 else 0) + RunsOf(events[1..], id)
  }

  lemma {:induction false} RunsConcat(a: seq<Event>, b: seq<Event>, id: NodeId)
    ensures RunsOf(a + b, id) == RunsOf(a, id) + RunsOf(b, id)
  {
    if a == [] {
      assert a + b == b;
    } else {
      assert (a + b)[1..] == a[1..] + b;
      RunsConcat(a[1..], b, id);
    }
  }

  function CountOf(s: State, id: NodeId): nat {
    if id in s.counts then s.counts[id] else 0
  }

  /** A turn executes at most one node, its own, at its very beginning. */
  ghost predicate Opening(g: Graph, s: State, inp: Input, events: seq<Event>)
    requires s.node in g.nodes
  {
    && (forall j :: 0 < j < |events| ==> !events[j].Ran?)
    && (events != [] && events[0].Ran? ==>
          events[0] == Ran(s.node, CountOf(s, s.node) + 1, ShownContext(g.nodes[s.node], s), inp))
  }

  /** What opening with a set of events leaves of the counts and the cap. */
  ghost predicate Opens(g: Graph, s: State, inp: Input, t: State, events: seq<Event>)
    requires s.node in g.nodes
  {
    var ran := events != [] && events[0].Ran?;
    && Opening(g, s, inp, events)
    && t.counts == (if ran then s.counts[s.node := CountOf(s, s.node) + 1] else s.counts)
    && t.capArmed == (s.capArmed && !ran)
  }

  lemma ExecuteOpens(g: Graph, s: State, inp: Input)
    requires s.node in g.nodes
    ensures var h := Execute(g, s, inp); Opens(g, s, inp, h.state, h.events)
  {
    hide Verdict;
    hide Snapshot;
    hide Assign;
    hide Populate;
    hide FaultText;
    hide AfterUpdates;
    hide ShownContext;
  }

  lemma WorkOpens(g: Graph, s: State, inp: Input)
    requires s.node in g.nodes
    ensures var h := Work(g, s, inp); Opens(g, s, inp, h.state, h.events)
  {
    hide Execute;
    hide Snapshot;
    hide Assign;
    hide Populate;
    hide FailedRefs;
    hide SkipOutcome;
    hide Stopped;
    var s1 := s.(steps := s.steps + 1);
    assert ShownContext(g.nodes[s.node], s1) == ShownContext(g.nodes[s.node], s);
    hide ShownContext;
    ExecuteOpens(g, s1, inp);
  }

  /** Routing leaves the visit counts and the cap alone. */
  predicate KeepsCounts(s: State, t: State) {
    t.counts == s.counts && t.capArmed == s.capArmed
  }

  lemma FollowCounts(s: State, e: Edge)
    ensures KeepsCounts(s, FollowEdge(s, e).state)
  {
    hide Decimal;
  }

  lemma RouteCounts(g: Graph, s: State, phase: Phase, prefer: NodeId)
    requires s.node in g.nodes
    ensures KeepsCounts(s, Route(g, s, phase, prefer).state)
  {
    hide GateJump;
    hide CheckGoalGates;
    hide SkipEdge;
    hide EdgeSelection.SelectEdge;
    hide FailureRetryTarget;
    hide FansOut;
    hide Terminate;
    hide FanIn.FanInNode;
    hide FollowEdge;
    hide Outgoing;
    hide Targets;
    match phase {
      case AtExit =>
      case SkippedNode(_) =>
      case CompletedNode(o) =>
        var edge := EdgeSelection.SelectEdge(g, s.node, o, s.ctx);
        if edge.Some? { FollowCounts(s, edge.value); }
    }
  }

  lemma TurnOpens(g: Graph, s: State, inp: Input)
    requires s.node in g.nodes
    ensures var t := Iterate(g, s, inp); Opens(g, s, inp, t.state, t.events)
  {
    hide Work;
    hide Route;
    WorkFrame(g, s, inp);
    WorkOpens(g, s, inp);
    var h := Work(g, s, inp);
    if h.Go? {
      RouteCounts(g, h.state, h.phase, inp.prefer);
      RouteFrame(g, h.state, h.phase, inp.prefer);
    }
  }

  /** How often each node was executed in a trace that begins with at most one execution. */
  lemma OpeningRuns(g: Graph, s: State, inp: Input, events: seq<Event>, id: NodeId)
    requires s.node in g.nodes && Opening(g, s, inp, events)
    ensures RunsOf(events, id) == if events != [] && events[0].Ran? && id == s.node then 1 else 0
  {
    if events != [] { NoRuns(events[1..], id); }
  }

  lemma {:induction false} NoRuns(events: seq<Event>, id: NodeId)
    requires forall e :: e in events ==> !e.Ran?
    ensures RunsOf(events, id) == 0
  {
    if events != [] {
      assert events[0] in events;
      NoRuns(events[1..], id);
    }
  }

  /** Every execution is told its number: one more than were counted before the walk and during it. */
  lemma {:induction false} VisitsAreCounted(g: Graph, s: State, inputs: seq<Input>, i: nat)
    requires WellFormed(g) && s.node in g.nodes
    ensures var trace := Walk(g, s, inputs).events;
      i < |trace| && trace[i].Ran? ==>
        trace[i].visit == CountOf(s, trace[i].node) + RunsOf(trace[..i], trace[i].node) + 1
    decreases |inputs|
  {
    hide Iterate;
    hide Opening;
    var trace := Walk(g, s, inputs).events;
    if i < |trace| && trace[i].Ran? {
      var t := Iterate(g, s, inputs[0]);
      StaysInGraph(g, s, inputs[0]);
      TurnOpens(g, s, inputs[0]);
      OpensFirst(g, s, inputs[0], t.events);
      if i < |t.events| {
        assert i == 0 && trace[0] == t.events[0];
      } else {
        var rest := Walk(g, t.state, inputs[1..]).events;
        var j := i - |t.events|;
        var id := trace[i].node;
        VisitsAreCounted(g, t.state, inputs[1..], j);
        OpeningRuns(g, s, inputs[0], t.events, id);
        assert trace[..i] == t.events + rest[..j];
        RunsConcat(t.events, rest[..j], id);
      }
    }
  }

  lemma OpensFirst(g: Graph, s: State, inp: Input, events: seq<Event>)
    requires s.node in g.nodes && Opening(g, s, inp, events)
    ensures forall j :: 0 < j < |events| ==> !events[j].Ran?
    ensures events != [] && events[0].Ran? ==>
      events[0] == Ran(s.node, CountOf(s, s.node) + 1, ShownContext(g.nodes[s.node], s), inp)
  {
  }

  // ---------------------------------------------------------------------------
  // The fidelity cap
  // ---------------------------------------------------------------------------

  ghost predicate NothingRan(events: seq<Event>) {
    forall e :: e in events ==> !e.Ran?
  }

  lemma TurnUncapped(g: Graph, s: State, inp: Input)
    requires s.node in g.nodes && CapKey !in s.ctx && CapFree(g, [inp]) && Iterate(g, s, inp).result == None
    ensures CapKey !in Iterate(g, s, inp).state.ctx
  {
    hide Work;
    hide Route;
    hide CapFree;
    WorkFrame(g, s, inp);
    WorkCapFree(g, s, inp);
    var h := Work(g, s, inp);
    if h.Go? { RouteCapFree(g, h.state, h.phase, inp.prefer); }
  }

  /** What a node is shown of the cap. */
  lemma ShownCap(n: Node, s: State)
    requires CapKey !in s.ctx
    ensures CapKey in ShownContext(n, s) <==> s.capArmed && n.resolvesFull
    ensures CapKey in ShownContext(n, s) ==> ShownContext(n, s)[CapKey] == Text("summary:high")
  {
  }

  /**
   * The cap is shown to the first node a resumed process executes, if fidelity resolves to full there, and to no other
   * node of any process, unless a handler writes that key itself.
   */
  lemma {:induction false} CapIsOneShot(g: Graph, s: State, inputs: seq<Input>, i: nat)
    requires WellFormed(g) && s.node in g.nodes && CapKey !in s.ctx && CapFree(g, inputs)
    ensures var trace := Walk(g, s, inputs).events;
      i < |trace| && trace[i].Ran? && trace[i].node in g.nodes ==>
        && (CapKey in trace[i].shown <==> s.capArmed && NothingRan(trace[..i]) && g.nodes[trace[i].node].resolvesFull)
        && (CapKey in trace[i].shown ==> trace[i].shown[CapKey] == Text("summary:high"))
    decreases |inputs|
  {
    hide Iterate;
    hide Opening;
    hide CapFree;
    hide NothingRan;
    var trace := Walk(g, s, inputs).events;
    if i < |trace| && trace[i].Ran? {
      var inp := inputs[0];
      var t := Iterate(g, s, inp);
      StaysInGraph(g, s, inp);
      TurnOpens(g, s, inp);
      OpensFirst(g, s, inp, t.events);
      if i < |t.events| {
        assert i == 0 && trace[0] == t.events[0];
        ShownCap(g.nodes[s.node], s);
        NothingYet(trace);
      } else {
        var rest := Walk(g, t.state, inputs[1..]).events;
        CapFreeParts(g, inputs);
        TurnUncapped(g, s, inp);
        CapIsOneShot(g, t.state, inputs[1..], i - |t.events|);
        assert trace[..i] == t.events + rest[..i - |t.events|];
        NothingRanBoth(t.events, rest[..i - |t.events|]);
        NothingRanOpening(g, s, inp, t.events);
      }
    }
  }

  lemma NothingYet(trace: seq<Event>)
    ensures NothingRan(trace[..0])
  {
  }

  lemma NothingRanBoth(a: seq<Event>, b: seq<Event>)
    ensures NothingRan(a + b) <==> NothingRan(a) && NothingRan(b)
  {
    if NothingRan(a + b) {
      forall e | e in a ensures !e.Ran? { assert e in a + b; }
      forall e | e in b ensures !e.Ran? { assert e in a + b; }
    }
  }

  lemma NothingRanOpening(g: Graph, s: State, inp: Input, events: seq<Event>)
    requires s.node in g.nodes && Opening(g, s, inp, events)
    ensures NothingRan(events) <==> !(events != [] && events[0].Ran?)
  {
  }

  lemma CapFreeParts(g: Graph, inputs: seq<Input>)
    requires CapFree(g, inputs) && inputs != []
    ensures CapFree(g, [inputs[0]]) && CapFree(g, inputs[1..])
  {
    hide Verdict;
    forall i, n | 0 <= i < 1 && n in g.nodes && Verdict(g.nodes[n], [inputs[0]][i]).Some?
      ensures CapKey !in Verdict(g.nodes[n], [inputs[0]][i]).value.contextUpdates.Or(map[])
    {
      assert [inputs[0]][i] == inputs[0];
    }
  }
}
