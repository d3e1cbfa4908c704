/** What the order of a set can change: a component whose branches have two equally good meeting nodes. */
module Ties {
  import opened Prelude
  import opened Outcomes
  import opened Graphs
  import opened NodeFiles
  import opened Retry
  import opened FanIn
  import opened Checkpoints
  import opened EngineModel
  import opened Resume
  import opened Agreement

  function Box(id: NodeId): Node {
    Node(id, "box", "", false, false, false, false, 0, None, None, false)
  }

  function Link(a: NodeId, b: NodeId): Edge {
    Edge(a, b, "", "", 0, false)
  }

  /** `c` fans out to `a` and `b`, and both lead to `x` and to `y`. */
  const TieGraph: Graph :=
    Graph(map["c" := Box("c").(shape := "component"), "a" := Box("a"), "b" := Box("b"), "x" := Box("x"), "y" := Box("y")],
          [Link("c", "a"), Link("c", "b"), Link("a", "x"), Link("a", "y"), Link("b", "x"), Link("b", "y")],
          None, None, map[], map[], "digraph", "f")

  lemma Branches()
    ensures Targets(Outgoing(TieGraph, "c")) == ["a", "b"] && FansOut(TieGraph, "c")
  {
    var e := TieGraph.edges;
    assert From(e[2..], "c") == [] by {
      assert e[2..][0] == e[2] && e[3..][0] == e[3] && e[4..][0] == e[4] && e[5..][0] == e[5];
      assert From(e[6..], "c") == [];
      assert From(e[5..], "c") == From(e[5..][1..], "c") && e[5..][1..] == e[6..];
      assert From(e[4..], "c") == From(e[4..][1..], "c") && e[4..][1..] == e[5..];
      assert From(e[3..], "c") == From(e[3..][1..], "c") && e[3..][1..] == e[4..];
      assert From(e[2..], "c") == From(e[2..][1..], "c") && e[2..][1..] == e[3..];
    }
    assert e[1..][0] == e[1] && e[1..][1..] == e[2..];
    assert From(e[1..], "c") == [e[1]];
    assert From(e, "c") == [e[0], e[1]];
  }

  /** Any node one step away from both branches is a best meeting node: none can be nearer. */
  lemma OneStepMeets(edges: seq<Edge>, v: NodeId)
    requires HasEdge(edges, "a", v) && HasEdge(edges, "b", v) && v != "a" && v != "b"
    ensures IsFanIn(edges, ["a", "b"], v)
  {
    var roots := ["a", "b"];
    forall r | r in roots ensures Reaches(edges, r, v, 1) {
      assert Reaches(edges, r, r, 0);
    }
    assert CommonDescendant(edges, roots, v);
    forall u, m: nat, n: nat | CommonDescendant(edges, roots, u) && IsSpread(edges, roots, u, n) && IsSpread(edges, roots, v, m)
      ensures m <= n
    {
      var r :| r in roots && IsDistance(edges, r, v, m);
      assert m <= 1;
      var q :| q in roots && IsDistance(edges, q, u, n);
      assert u != q;
    }
  }

  lemma TwoMeetings()
    ensures IsMeeting(TieGraph, "c", "x") && IsMeeting(TieGraph, "c", "y")
    ensures !UniqueFanIns(TieGraph)
  {
    hide IsFanIn;
    hide Outgoing;
    Branches();
    TwoSteps();
    OneStepMeets(TieGraph.edges, "x");
    OneStepMeets(TieGraph.edges, "y");
    hide FansOut;
  }

  lemma TwoSteps()
    ensures HasEdge(TieGraph.edges, "a", "x") && HasEdge(TieGraph.edges, "b", "x")
    ensures HasEdge(TieGraph.edges, "a", "y") && HasEdge(TieGraph.edges, "b", "y")
  {
    var e := TieGraph.edges;
    assert e[2] in e && e[3] in e && e[4] in e && e[5] in e;
  }

  lemma TieGraphIsWellFormed()
    ensures WellFormed(TieGraph) && |TieGraph.nodes| == 5 && !TieGraph.nodes["c"].IsExit()
  {
    var g := TieGraph;
    forall e | e in g.edges ensures e.source in g.nodes && e.target in g.nodes {
      var i :| 0 <= i < |g.edges| && g.edges[i] == e;
    }
    assert !g.nodes["c"].IsExit() by { assert |Lower("c")| == 1; }
  }

  /** What the killed process saved. */
  lemma ComponentSaved()
    ensures var h := Work(TieGraph, Fresh("c", map[]), Succeeds);
      h.Go? && h.phase.CompletedNode? && h.state.node == "c" && h.state.steps == 1 && Checkpointed(TieGraph, h.state, h.phase)
  {
    hide Work;
    ComponentRan();
    TieGraphIsWellFormed();
    var s := Work(TieGraph, Fresh("c", map[]), Succeeds).state;
    assert Derived(TieGraph, s.outcomes[..0]) == map[];
  }

  lemma ComponentRan()
    ensures var h := Work(TieGraph, Fresh("c", map[]), Succeeds);
      && h.Go? && h.phase == CompletedNode(PassedOutcome) && h.state.node == "c" && h.state.pending.None?
      && h.state.steps == 1 && h.state.outcomes == [("c", PassedOutcome)] && h.state.failed == map[]
  {
    hide Snapshot;
    hide AfterUpdates;
    hide ShownContext;
    var g, s := TieGraph, Fresh("c", map[]);
    assert !g.nodes["c"].IsExit() by { assert |Lower("c")| == 1; }
    assert FailedRefs(g, s.(steps := 1)) == {};
    hide FailedRefs;
    assert |g.nodes| == 5;
    ComponentVerdict();
    hide Verdict;
  }

  lemma ComponentVerdict()
    ensures Verdict(TieGraph.nodes["c"], Succeeds) == Some(PassedOutcome)
  {
  }

  /**
   * A process whose sets are tried in an order that prefers `x` completes the component and dies at its save.
   * Live it would go on to `x`; resumed by a process that prefers `y`, the run goes on to `y`.
   */
  lemma TieKillDiffers()
    ensures WellFormed(TieGraph)
    ensures var h := Work(TieGraph, Fresh("c", map[]), Succeeds);
      h.Go? && h.state.node in TieGraph.nodes &&
      !TurnSim(Route(TieGraph, h.state, h.phase, "x"),
               Iterate(TieGraph, Reloaded(TieGraph, h.state), Quiet(Succeeds).(prefer := "y")), 1)
  {
    hide Work;
    hide TurnSim;
    hide MeetingOf;
    hide FansOut;
    hide IsMeeting;
    hide Checkpointed;
    hide Reloaded;
    hide Iterate;
    hide Route;
    var g := TieGraph;
    TieGraphIsWellFormed();
    ComponentSaved();
    Branches();
    TwoMeetings();
    TiedMeets(g, "c", "x");
    TiedMeets(g, "c", "y");
    hide Outgoing;
    hide UniqueFanIns;
    var h := Work(g, Fresh("c", map[]), Succeeds);
    assert !PickedAlike(g, "c", "x", "y");
    assert Quiet(Succeeds.(prefer := "x")).(prefer := "y") == Quiet(Succeeds).(prefer := "y");
    HopExactly(g, h.state, h.phase, Succeeds.(prefer := "x"), "y");
  }
}
