/**
 * What a wrong table of failed outputs does. Two processes that differ only in that table act alike
 * exactly until one of them is about to run a node that refers to a key on which the tables differ;
 * so does a resumed process whose derived table is not the one the live engine had.
 */
module Divergence {
  import opened Prelude
  import opened Outcomes
  import opened Graphs
  import opened EdgeSelection
  import opened Checkpoints
  import opened EngineModel
  import opened Resume
  import opened Agreement
  import opened SkipKills

  // ---------------------------------------------------------------------------
  // What a process does, leaving out what it writes
  // ---------------------------------------------------------------------------

  datatype Deed = Started(node: NodeId) | Ended(node: NodeId, outcome: Outcome, ran: bool)

  function DeedOf(e: Event): seq<Deed> {
    match e
    case Ran(node, _, _, _) => [Started(node)]
    case Recorded(node, outcome, ran) => [Ended(node, outcome, ran)]
    case _ => []
  }

  /** The executions and completions of a trace. */
  function Deeds(events: seq<Event>): seq<Deed> {
    if events == [] then [] else DeedOf(events[0]) + Deeds(events[1..])
  }

  lemma {:induction false} DeedsConcat(a: seq<Event>, b: seq<Event>)
    ensures Deeds(a + b) == Deeds(a) + Deeds(b)
  {
    if a == [] {
      assert a + b == b;
    } else {
      assert (a + b)[1..] == a[1..] + b;
      DeedsConcat(a[1..], b);
    }
  }

  /** The turn gets as far as looking at the node's references. */
  ghost predicate Acts(g: Graph, s: State, inp: Input)
    requires s.node in g.nodes
  {
    Stopped(g, s.steps + 1, inp).None? && !g.nodes[s.node].IsExit() && s.pending.None?
  }

  lemma ShortDeeds(e: seq<Event>)
    ensures e == [] ==> Deeds(e) == []
    ensures |e| == 1 ==> Deeds(e) == DeedOf(e[0])
    ensures |e| == 2 ==> Deeds(e) == DeedOf(e[0]) + DeedOf(e[1])
    ensures |e| == 3 ==> Deeds(e) == DeedOf(e[0]) + DeedOf(e[1]) + DeedOf(e[2])
  {
    hide DeedOf;
    if |e| >= 1 { assert e[1..][|e| - 1..] == []; }
    if |e| == 2 { assert e[1..] == [e[1]]; }
    if |e| == 3 { assert e[1..] == [e[1], e[2]] && e[1..][1..] == [e[2]]; }
  }

  /** What a turn's first half does: nothing, a refusal, or an execution. */
  lemma WorkDeeds(g: Graph, s: State, inp: Input)
    requires s.node in g.nodes
    ensures var h := Work(g, s, inp);
      var d := Deeds(h.events);
      && (!Acts(g, s, inp) ==> d == [])
      && (Acts(g, s, inp) && FailedRefs(g, s) != {} ==> d == [Ended(s.node, SkipOutcome(g, s), false)])
      && (Acts(g, s, inp) && FailedRefs(g, s) == {} ==>
            d == [Started(s.node)] + if h.Go? then [Ended(s.node, h.phase.outcome, true)] else [])
  {
    hide Verdict;
    hide Snapshot;
    hide Assign;
    hide Populate;
    hide FaultText;
    hide AfterUpdates;
    hide ShownContext;
    hide Visit;
    hide Deeds;
    hide Stopped;
    var s1 := s.(steps := s.steps + 1);
    assert FailedRefs(g, s1) == FailedRefs(g, s);
    assert SkipOutcome(g, s1) == SkipOutcome(g, s);
    hide FailedRefs;
    hide SkipOutcome;
    ShortDeeds(Work(g, s, inp).events);
  }

  lemma TurnDeeds(g: Graph, s: State, inp: Input)
    requires s.node in g.nodes
    ensures Deeds(Iterate(g, s, inp).events) == Deeds(Work(g, s, inp).events)
  {
    hide Work;
    hide Route;
    var h := Work(g, s, inp);
    WorkFrame(g, s, inp);
    if h.Go? {
      var more := Route(g, h.state, h.phase, inp.prefer).events;
      RouteFrame(g, h.state, h.phase, inp.prefer);
      DeedsConcat(h.events, more);
      ShortDeeds(more);
    }
  }

  lemma WalkDeeds(g: Graph, s: State, inputs: seq<Input>)
    requires WellFormed(g) && s.node in g.nodes && inputs != []
    ensures var t := Iterate(g, s, inputs[0]);
      t.state.node in g.nodes &&
      Deeds(Walk(g, s, inputs).events) ==
        Deeds(t.events) + if t.result.None? then Deeds(Walk(g, t.state, inputs[1..]).events) else []
  {
    hide Iterate;
    StaysInGraph(g, s, inputs[0]);
    var t := Iterate(g, s, inputs[0]);
    if t.result.None? { DeedsConcat(t.events, Walk(g, t.state, inputs[1..]).events); }
  }

  // ---------------------------------------------------------------------------
  // Two processes that differ only in the table
  // ---------------------------------------------------------------------------

  ghost predicate Twins(a: State, b: State) {
    b == a.(failed := b.failed)
  }

  /** The tables differ on `k`. */
  predicate Disputed(a: State, b: State, k: Key) {
    (k in a.failed) != (k in b.failed)
  }

  /** The turn is about to run a node that refers to a key on which the tables differ. */
  ghost predicate Looks(g: Graph, a: State, b: State, inp: Input)
    requires a.node in g.nodes
  {
    Acts(g, a, inp) && exists k :: k in RefsOf(g, a.node) && Disputed(a, b, k)
  }

  lemma LooksExactly(g: Graph, a: State, b: State, inp: Input)
    requires a.node in g.nodes && Twins(a, b)
    ensures Looks(g, a, b, inp) <==> Acts(g, a, inp) && FailedRefs(g, a) != FailedRefs(g, b)
  {
    hide Acts;
    if k :| k in RefsOf(g, a.node) && Disputed(a, b, k) {
      assert k in FailedRefs(g, a) <==> k !in FailedRefs(g, b);
    } else {
      assert FailedRefs(g, a) == FailedRefs(g, b);
    }
  }

  /** No turn of the two walks looks at a disputed key. */
  ghost predicate NeverLooks(g: Graph, a: State, b: State, inputs: seq<Input>)
    requires WellFormed(g) && a.node in g.nodes && b.node in g.nodes
    decreases |inputs|
  {
    inputs == [] ||
    (!Looks(g, a, b, inputs[0]) &&
     (StaysInGraph(g, a, inputs[0]);
      StaysInGraph(g, b, inputs[0]);
      var ta, tb := Iterate(g, a, inputs[0]), Iterate(g, b, inputs[0]);
      ta.result.None? ==> NeverLooks(g, ta.state, tb.state, inputs[1..])))
  }

  /** Nothing is disputed afterwards that was not before. */
  ghost predicate NoNewDispute(a: State, b: State, c: State, d: State) {
    forall k :: Disputed(c, d, k) ==> Disputed(a, b, k)
  }

  ghost predicate HalfTwins(ha: Half, hb: Half) {
    && (ha.Halt? <==> hb.Halt?) && Twins(ha.state, hb.state)
    && (ha.Halt? ==> ha.outcome == hb.outcome)
    && (ha.Go? ==> ha.phase == hb.phase)
  }

  lemma PopulateKeeps(g: Graph, a: map<Key, NodeId>, id: NodeId)
    ensures forall k :: k in Populate(g, a, id) <==> k in a || k in OutputsOf(g, id)
  {
  }

  /** Tables left alone, or emptied together. */
  lemma SameDispute(a: State, b: State, c: State, d: State)
    requires (c.failed == a.failed && d.failed == b.failed) || (c.failed == map[] && d.failed == map[])
    ensures NoNewDispute(a, b, c, d)
  {
  }

  lemma CompletedTwins(g: Graph, n: Node, a: State, b: State, o: Outcome)
    requires Twins(a, b)
    ensures var ca, cb := Completed(g, Entered(n, a), o), Completed(g, Entered(n, b), o);
      Twins(ca, cb) && NoNewDispute(a, b, ca, cb)
  {
    assert ShownContext(n, a) == ShownContext(n, b) && Visit(a) == Visit(b);
    hide Assign;
    hide AfterUpdates;
    hide ShownContext;
    hide Visit;
    PopulateKeeps(g, a.failed, a.node);
    PopulateKeeps(g, b.failed, a.node);
    hide Populate;
    hide OutputsOf;
  }

  lemma EnteredTwins(n: Node, a: State, b: State)
    requires Twins(a, b)
    ensures Entered(n, b) == Entered(n, a).(failed := b.failed) && Entered(n, a).failed == a.failed
  {
  }

  lemma ExecuteTwins(g: Graph, a: State, b: State, inp: Input)
    requires a.node in g.nodes && Twins(a, b)
    ensures var ha, hb := Execute(g, a, inp), Execute(g, b, inp);
      HalfTwins(ha, hb) && NoNewDispute(a, b, ha.state, hb.state)
  {
    hide Verdict;
    hide Snapshot;
    hide Assign;
    hide FaultText;
    hide Completed;
    hide ShownContext;
    hide Visit;
    hide NoNewDispute;
    var n := g.nodes[a.node];
    var o := Verdict(n, inp);
    assert Entered(n, b) == Entered(n, a).(failed := b.failed) by { EnteredTwins(n, a, b); }
    hide Entered;
    var ha, hb := Execute(g, a, inp), Execute(g, b, inp);
    if ha.Halt? { SameDispute(a, b, ha.state, hb.state); } else { CompletedTwins(g, n, a, b, o.value); }
  }

  lemma SkipTwins(g: Graph, a: State, b: State)
    requires Twins(a, b) && FailedRefs(g, a) == FailedRefs(g, b)
    ensures SkipOutcome(g, a) == SkipOutcome(g, b)
    ensures var sa, sb := SkipRecorded(g, a, SkipOutcome(g, a)), SkipRecorded(g, b, SkipOutcome(g, b));
      Twins(sa, sb) && NoNewDispute(a, b, sa, sb)
  {
    hide FailedRefs;
    hide Assign;
    PopulateKeeps(g, a.failed, a.node);
    PopulateKeeps(g, b.failed, a.node);
    hide Populate;
    hide OutputsOf;
  }

  /** The first half, told apart by what it looks at. */
  lemma WorkCases(g: Graph, s: State, inp: Input)
    requires s.node in g.nodes
    ensures var h, s1 := Work(g, s, inp), s.(steps := s.steps + 1);
      && (!Acts(g, s, inp) ==>
            && h.state == s1.(pending := if h.Go? && h.phase.CompletedNode? then None else s.pending)
            && (h.Halt? ==> Stopped(g, s1.steps, inp) == Some(h.outcome))
            && (h.Go? ==> Stopped(g, s1.steps, inp).None? &&
                          h.phase == if g.nodes[s.node].IsExit() then AtExit else CompletedNode(s.pending.value)))
      && (Acts(g, s, inp) && FailedRefs(g, s) != {} ==>
            h.Go? && h.state == SkipRecorded(g, s1, SkipOutcome(g, s1)) && h.phase == SkippedNode(SkipOutcome(g, s1)))
      && (Acts(g, s, inp) && FailedRefs(g, s) == {} ==> h == Execute(g, s1, inp))
  {
    hide Execute;
    hide Snapshot;
    hide SkipOutcome;
    hide SkipRecorded;
    hide Stopped;
    assert FailedRefs(g, s.(steps := s.steps + 1)) == FailedRefs(g, s);
    hide FailedRefs;
  }

  lemma WorkTwins(g: Graph, a: State, b: State, inp: Input)
    requires a.node in g.nodes && Twins(a, b) && !Looks(g, a, b, inp)
    ensures var ha, hb := Work(g, a, inp), Work(g, b, inp);
      HalfTwins(ha, hb) && NoNewDispute(a, b, ha.state, hb.state)
  {
    hide Work;
    hide Execute;
    hide SkipOutcome;
    hide SkipRecorded;
    hide NoNewDispute;
    LooksExactly(g, a, b, inp);
    hide Looks;
    WorkCases(g, a, inp);
    WorkCases(g, b, inp);
    var a1, b1 := a.(steps := a.steps + 1), b.(steps := b.steps + 1);
    var ha, hb := Work(g, a, inp), Work(g, b, inp);
    SameDispute(a, b, a1, b1);
    assert FailedRefs(g, a1) == FailedRefs(g, a) && FailedRefs(g, b1) == FailedRefs(g, b);
    hide FailedRefs;
    if !Acts(g, a, inp) {
      SameDispute(a, b, ha.state, hb.state);
    } else if FailedRefs(g, a) != {} {
      SkipTwins(g, a1, b1);
      DisputeChain(a, b, a1, b1, ha.state, hb.state);
    } else {
      ExecuteTwins(g, a1, b1, inp);
      DisputeChain(a, b, a1, b1, ha.state, hb.state);
    }
  }

  lemma DisputeChain(a: State, b: State, c: State, d: State, e: State, f: State)
    requires NoNewDispute(a, b, c, d) && NoNewDispute(c, d, e, f)
    ensures NoNewDispute(a, b, e, f)
  {
  }

  ghost predicate TurnsTwin(a: State, b: State, ta: Turn, tb: Turn) {
    && ta.result == tb.result && Twins(ta.state, tb.state)
    && ((ta.state.failed == a.failed && tb.state.failed == b.failed) || (ta.state.failed == map[] && tb.state.failed == map[]))
  }

  lemma ExitTwins(g: Graph, a: State, b: State)
    requires Twins(a, b)
    ensures TurnsTwin(a, b, RouteExit(g, a), RouteExit(g, b))
  {
    hide CoerceSuggestedId;
    assert CheckGoalGates(g, a) == CheckGoalGates(g, b);
    hide CheckGoalGates;
  }

  lemma SkippedTwins(g: Graph, a: State, b: State, skip: Outcome)
    requires a.node in g.nodes && Twins(a, b)
    ensures TurnsTwin(a, b, RouteSkipped(g, a, skip), RouteSkipped(g, b, skip))
  {
    hide SelectEdge;
    assert SkipEdge(g, a, skip) == SkipEdge(g, b, skip);
    hide SkipEdge;
    hide FailureRetryTarget;
    hide Terminate;
  }

  lemma FollowTwins(a: State, b: State, e: Edge)
    requires Twins(a, b)
    ensures TurnsTwin(a, b, FollowEdge(a, e), FollowEdge(b, e))
  {
    hide Decimal;
  }

  lemma RoutedTwins(g: Graph, a: State, b: State, o: Outcome, prefer: NodeId)
    requires a.node in g.nodes && Twins(a, b)
    ensures TurnsTwin(a, b, RouteCompleted(g, a, o, prefer), RouteCompleted(g, b, o, prefer))
  {
    hide SelectEdge;
    hide FailureRetryTarget;
    hide FansOut;
    hide Terminate;
    hide FanIn.FanInNode;
    hide Outgoing;
    hide Targets;
    hide FollowEdge;
    var e := SelectEdge(g, a.node, o, a.ctx);
    if e.Some? { FollowTwins(a, b, e.value); }
  }

  lemma RouteTwins(g: Graph, a: State, b: State, phase: Phase, prefer: NodeId)
    requires a.node in g.nodes && Twins(a, b)
    ensures var ta, tb := Route(g, a, phase, prefer), Route(g, b, phase, prefer);
      TurnsTwin(a, b, ta, tb) && NoNewDispute(a, b, ta.state, tb.state)
  {
    match phase {
      case AtExit => ExitTwins(g, a, b);
      case SkippedNode(skip) => SkippedTwins(g, a, b, skip);
      case CompletedNode(o) => RoutedTwins(g, a, b, o, prefer);
    }
    SameDispute(a, b, Route(g, a, phase, prefer).state, Route(g, b, phase, prefer).state);
    hide Route;
  }

  /** Until a disputed key is looked at, one turn leaves them twins, having done the same. */
  lemma TurnTwins(g: Graph, a: State, b: State, inp: Input)
    requires a.node in g.nodes && Twins(a, b) && !Looks(g, a, b, inp)
    ensures var ta, tb := Iterate(g, a, inp), Iterate(g, b, inp);
      && ta.result == tb.result && Twins(ta.state, tb.state) && NoNewDispute(a, b, ta.state, tb.state)
      && Deeds(ta.events) == Deeds(tb.events)
  {
    WorkTwins(g, a, b, inp);
    WorkDeeds(g, a, inp);
    WorkDeeds(g, b, inp);
    TurnDeeds(g, a, inp);
    TurnDeeds(g, b, inp);
    WorkFrame(g, a, inp);
    LooksExactly(g, a, b, inp);
    hide Looks;
    hide Work;
    hide Route;
    hide Deeds;
    hide FailedRefs;
    var ha, hb := Work(g, a, inp), Work(g, b, inp);
    if ha.Go? {
      var ra, rb := Route(g, ha.state, ha.phase, inp.prefer), Route(g, hb.state, hb.phase, inp.prefer);
      RouteTwins(g, ha.state, hb.state, ha.phase, inp.prefer);
      DisputeChain(a, b, ha.state, hb.state, ra.state, rb.state);
    }
    hide NoNewDispute;
  }

  /** Looking at one, they part at once: one refuses what the other runs, or they refuse for different keys. */
  lemma TurnParts(g: Graph, a: State, b: State, inp: Input)
    requires a.node in g.nodes && Twins(a, b) && Looks(g, a, b, inp)
    ensures var da, db := Deeds(Iterate(g, a, inp).events), Deeds(Iterate(g, b, inp).events);
      && da != [] && db != [] && da[0] != db[0]
      && (da[0].Started? <==> FailedRefs(g, a) == {}) && (db[0].Started? <==> FailedRefs(g, b) == {})
  {
    WorkDeeds(g, a, inp);
    WorkDeeds(g, b, inp);
    TurnDeeds(g, a, inp);
    TurnDeeds(g, b, inp);
    LooksExactly(g, a, b, inp);
    hide Looks;
    hide Work;
    hide Iterate;
    hide Deeds;
    hide FailedRefs;
  }

  lemma SamePrefix(a: seq<Deed>, x: seq<Deed>, y: seq<Deed>)
    ensures a + x == a + y <==> x == y
  {
    assert (a + x)[|a|..] == x && (a + y)[|a|..] == y;
  }

  /**
   * Two processes that differ only in the table do the same, turn by turn, exactly as long as neither is about to
   * run a node that refers to a disputed key; until then they also end alike and keep differing in the table only.
   */
  lemma {:induction false} DivergesExactly(g: Graph, a: State, b: State, inputs: seq<Input>)
    requires WellFormed(g) && a.node in g.nodes && Twins(a, b)
    ensures var ta, tb := Walk(g, a, inputs), Walk(g, b, inputs);
      && (Deeds(ta.events) == Deeds(tb.events) <==> NeverLooks(g, a, b, inputs))
      && (NeverLooks(g, a, b, inputs) ==> ta.result == tb.result && Twins(ta.state, tb.state))
    decreases |inputs|
  {
    hide Iterate;
    hide Deeds;
    hide Looks;
    if inputs != [] {
      WalkDeeds(g, a, inputs);
      WalkDeeds(g, b, inputs);
      var ta, tb := Iterate(g, a, inputs[0]), Iterate(g, b, inputs[0]);
      if Looks(g, a, b, inputs[0]) {
        TurnParts(g, a, b, inputs[0]);
        assert Deeds(Walk(g, a, inputs).events)[0] == Deeds(ta.events)[0];
        assert Deeds(Walk(g, b, inputs).events)[0] == Deeds(tb.events)[0];
      } else {
        TurnTwins(g, a, b, inputs[0]);
        if ta.result.None? {
          DivergesExactly(g, ta.state, tb.state, inputs[1..]);
          SamePrefix(Deeds(ta.events), Deeds(Walk(g, ta.state, inputs[1..]).events), Deeds(Walk(g, tb.state, inputs[1..]).events));
        }
      }
    }
  }

  /** A dispute over keys that no node refers to is never noticed. */
  lemma {:induction false} UnreadIsInert(g: Graph, a: State, b: State, inputs: seq<Input>)
    requires WellFormed(g) && a.node in g.nodes && Twins(a, b)
    requires forall id, k :: k in RefsOf(g, id) ==> !Disputed(a, b, k)
    ensures NeverLooks(g, a, b, inputs)
    decreases |inputs|
  {
    hide Iterate;
    hide Deeds;
    if inputs != [] {
      TurnTwins(g, a, b, inputs[0]);
      StaysInGraph(g, a, inputs[0]);
      var ta, tb := Iterate(g, a, inputs[0]), Iterate(g, b, inputs[0]);
      if ta.result.None? { UnreadIsInert(g, ta.state, tb.state, inputs[1..]); }
    }
  }

  // ---------------------------------------------------------------------------
  // A resumed process whose derived table is wrong
  // ---------------------------------------------------------------------------

  /** From equal states, on alike inputs, one turn does the same. */
  lemma TurnDeedsSim(g: Graph, a: State, b: State, x: Input, y: Input, lag: nat)
    requires a.node in g.nodes && Sim(a, b, lag) && b.steps < MaxSteps(g) && Reordered(x, y)
    ensures Deeds(Iterate(g, a, x).events) == Deeds(Iterate(g, b, y).events)
  {
    SimNodes(a, b, lag);
    SkipSim(g, a, b, lag);
    WorkSim(g, a, b, x, y, lag);
    WorkDeeds(g, a, x);
    WorkDeeds(g, b, y);
    TurnDeeds(g, a, x);
    TurnDeeds(g, b, y);
    hide Sim;
    hide Work;
    hide Iterate;
    hide Deeds;
    hide FailedRefs;
    hide SkipOutcome;
  }

  lemma {:induction false} WalkDeedsSim(g: Graph, a: State, b: State, xs: seq<Input>, ys: seq<Input>, lag: nat)
    requires WellFormed(g) && a.node in g.nodes && Sim(a, b, lag) && AllAlike(g, xs, ys)
    requires a.steps + |xs| + lag <= MaxSteps(g)
    ensures Deeds(Walk(g, a, xs).events) == Deeds(Walk(g, b, ys).events)
    decreases |xs|
  {
    hide Iterate;
    hide Deeds;
    hide SamePick;
    SimNodes(a, b, lag);
    hide Sim;
    if xs != [] {
      assert Alike(g, xs[0], ys[0]);
      WalkDeeds(g, a, xs);
      WalkDeeds(g, b, ys);
      TurnDeedsSim(g, a, b, xs[0], ys[0], lag);
      IterateSim(g, a, b, xs[0], ys[0], lag);
      IterateSteps(g, a, xs[0]);
      var ta, tb := Iterate(g, a, xs[0]), Iterate(g, b, ys[0]);
      if ta.result.None? { WalkDeedsSim(g, ta.state, tb.state, xs[1..], ys[1..], lag); }
    }
  }

  lemma {:induction false} WalkStepsAtMost(g: Graph, s: State, inputs: seq<Input>)
    requires WellFormed(g) && s.node in g.nodes
    ensures Walk(g, s, inputs).state.steps <= s.steps + |inputs|
    decreases |inputs|
  {
    hide Iterate;
    if inputs != [] {
      StaysInGraph(g, s, inputs[0]);
      IterateSteps(g, s, inputs[0]);
      var t := Iterate(g, s, inputs[0]);
      if t.result.None? { WalkStepsAtMost(g, t.state, inputs[1..]); }
    }
  }

  /** The saved state with the table its checkpoint will be read back with. */
  function Rederived(g: Graph, s: State): State {
    s.(failed := Derived(g, s.outcomes))
  }

  lemma TableIsNotSaved(g: Graph, s: State)
    ensures Reloaded(g, Rederived(g, s)) == Reloaded(g, s)
  {
    hide Derived;
    hide Restore;
  }

  /** The first turn of the process that goes on. */
  ghost function Resumed(g: Graph, s: State, inp: Input, q: NodeId): Turn
    requires s.node in g.nodes
  {
    Iterate(g, Reloaded(g, s), Quiet(inp).(prefer := q))
  }

  /** Whatever the derived table: the resumed process's first turn ends as the killed one's would have. */
  lemma FirstTurnAgrees(g: Graph, s: State, phase: Phase, inp: Input, q: NodeId)
    requires WellFormed(g) && Checkpointed(g, Rederived(g, s), phase) && s.steps < MaxSteps(g)
    requires Rejoins(g, Rederived(g, s), phase, inp.prefer, q)
    ensures var u, v := Route(g, s, phase, inp.prefer), Resumed(g, s, inp, q);
      && SameResult(u.result, v.result) && u.state.node in g.nodes && v.state.node in g.nodes
      && Sim(u.state.(failed := v.state.failed), v.state, 1)
      && NoNewDispute(s, Rederived(g, s), u.state, u.state.(failed := v.state.failed))
      && v.state.failed == Route(g, Rederived(g, s), phase, inp.prefer).state.failed
  {
    hide Route;
    hide Reloaded;
    hide Iterate;
    hide Rejoins;
    hide Derived;
    var d := Rederived(g, s);
    TableIsNotSaved(g, s);
    HopExactly(g, d, phase, inp, q);
    RouteTwins(g, s, d, phase, inp.prefer);
    RouteStays(g, s, phase, inp.prefer);
    StaysInGraph(g, Reloaded(g, s), Quiet(inp).(prefer := q));
    SimTables(Route(g, d, phase, inp.prefer).state, Resumed(g, s, inp, q).state);
    hide Checkpointed;
    hide NoNewDispute;
    hide Sim;
  }

  lemma SavedInGraph(g: Graph, s: State, phase: Phase)
    requires Checkpointed(g, Rederived(g, s), phase)
    ensures s.node in g.nodes
  {
  }

  lemma SimTables(a: State, b: State)
    ensures Sim(a, b, 1) ==> b.failed == a.failed
  {
  }

  /**
   * A resume from any save, its table derived rightly or wrongly: the process that goes on does what the killed one
   * would have done exactly as long as neither comes to run a node that refers to a key on which the two tables
   * differ; and as long as that is so they end alike.
   */
  lemma ResumedDivergesExactly(g: Graph, s: State, phase: Phase, inp: Input, q: NodeId, xs: seq<Input>, ys: seq<Input>)
    requires WellFormed(g) && Checkpointed(g, Rederived(g, s), phase)
    requires Rejoins(g, Rederived(g, s), phase, inp.prefer, q)
    requires AllAlike(g, xs, ys) && s.steps + 1 + |xs| <= MaxSteps(g)
    ensures var u, v := Route(g, s, phase, inp.prefer), Resumed(g, s, inp, q);
      && SameResult(u.result, v.result) && u.state.node in g.nodes && v.state.node in g.nodes
      && (u.result.None? ==>
            var live, resumed := Walk(g, u.state, xs), Walk(g, v.state, ys);
            var blind := NeverLooks(g, u.state, u.state.(failed := v.state.failed), xs);
            && (Deeds(live.events) == Deeds(resumed.events) <==> blind)
            && (blind ==> SameResult(live.result, resumed.result) &&
                          (live.result.None? ==> Sim(live.state.(failed := resumed.state.failed), resumed.state, 1))))
  {
    hide Route;
    hide Resumed;
    hide Walk;
    hide Deeds;
    hide NeverLooks;
    hide Checkpointed;
    hide Rejoins;
    hide Rederived;
    hide AllAlike;
    SavedInGraph(g, s, phase);
    FirstTurnAgrees(g, s, phase, inp, q);
    var u, v := Route(g, s, phase, inp.prefer), Resumed(g, s, inp, q);
    if u.result.None? {
      var twin := u.state.(failed := v.state.failed);
      RouteFrame(g, s, phase, inp.prefer);
      DivergesExactly(g, u.state, twin, xs);
      WalkDeedsSim(g, twin, v.state, xs, ys, 1);
      WalkStepsAtMost(g, twin, xs);
      WalkSim(g, twin, v.state, xs, ys, 1);
      var w, r := Walk(g, twin, xs), Walk(g, v.state, ys);
      SimTables(w.state, r.state);
    }
  }

  /** A wrong table does no harm if all keys on which it is wrong are keys that no node refers to. */
  lemma UnreadDisputeIsHarmless(g: Graph, s: State, phase: Phase, inp: Input, q: NodeId, xs: seq<Input>, ys: seq<Input>)
    requires WellFormed(g) && Checkpointed(g, Rederived(g, s), phase)
    requires Rejoins(g, Rederived(g, s), phase, inp.prefer, q)
    requires AllAlike(g, xs, ys) && s.steps + 1 + |xs| <= MaxSteps(g)
    requires forall id, k :: k in RefsOf(g, id) ==> !Disputed(s, Rederived(g, s), k)
    ensures var u, v := Route(g, s, phase, inp.prefer), Resumed(g, s, inp, q);
      && SameResult(u.result, v.result) && u.state.node in g.nodes && v.state.node in g.nodes
      && (u.result.None? ==>
            var live, resumed := Walk(g, u.state, xs), Walk(g, v.state, ys);
            && Deeds(live.events) == Deeds(resumed.events) && SameResult(live.result, resumed.result)
            && (live.result.None? ==> Sim(live.state.(failed := resumed.state.failed), resumed.state, 1)))
  {
    hide Route;
    hide Resumed;
    hide Walk;
    hide Deeds;
    hide NeverLooks;
    hide Checkpointed;
    hide Rejoins;
    hide Rederived;
    hide AllAlike;
    SavedInGraph(g, s, phase);
    FirstTurnAgrees(g, s, phase, inp, q);
    ResumedDivergesExactly(g, s, phase, inp, q, xs, ys);
    var u, v := Route(g, s, phase, inp.prefer), Resumed(g, s, inp, q);
    UnreadIsInert(g, u.state, u.state.(failed := v.state.failed), xs);
  }

  // ---------------------------------------------------------------------------
  // It does go wrong
  // ---------------------------------------------------------------------------

  /** `a` has failed and `b` was skipped for it; `a` succeeds when it is visited again, and the process dies at that save. */
  lemma SecondVisit(s: State)
    requires s.node == "a" && s.pending.None? && s.steps == 2 && s.failed == map["k" := "a"]
    requires |s.outcomes| == 2 && s.outcomes[0] == ("a", TimedOutOutcome) && s.outcomes[1].0 == "b" && s.outcomes[1].1.status.Skipped?
    ensures var g := TwoNodes(false);
      var h := Work(g, s, Succeeds);
      && h.Go? && h.phase == CompletedNode(PassedOutcome) && h.state.node == "a" && h.state.pending.None? && h.state.steps == 3
      && h.state.failed == map["k" := "a"] && h.state.outcomes == [("a", PassedOutcome), s.outcomes[1]]
  {
    hide Verdict;
    hide Snapshot;
    hide AfterUpdates;
    hide ShownContext;
    hide Populate;
    var g := TwoNodes(false);
    assert !g.nodes["a"].IsExit() by { assert |Lower("a")| == 1; }
    assert FailedRefs(g, s.(steps := 3)) == {};
    hide FailedRefs;
    assert |g.nodes| == 2;
    assert Verdict(g.nodes["a"], Succeeds) == Some(PassedOutcome) by { LoopVerdicts(); }
  }

  lemma UpToSecondVisit()
    ensures var t := Walk(TwoNodes(false), Fresh("a", map[]), [TimesOut, Succeeds]);
      var s := t.state;
      && t.result.None? && s.node == "a" && s.pending.None? && s.steps == 2 && s.failed == map["k" := "a"]
      && |s.outcomes| == 2 && s.outcomes[0] == ("a", TimedOutOutcome) && s.outcomes[1].0 == "b" && s.outcomes[1].1.status.Skipped?
  {
    hide Work;
    hide Iterate;
    hide SameMove;
    var g, s0, inputs := TwoNodes(false), Fresh("a", map[]), [TimesOut, Succeeds];
    FirstFails(false);
    var s1 := Walk(g, s0, [TimesOut]).state;
    ThenSkipped(false, s1, Succeeds);
    GoesBack(s1);
    assert inputs[..1] == [TimesOut] && inputs[1..] == [Succeeds] && [Succeeds][1..] == [];
    WalkSplit(g, s0, [TimesOut], [Succeeds]);
    assert [TimesOut] + [Succeeds] == inputs;
    var t2 := Iterate(g, s1, Succeeds);
    assert Walk(g, t2.state, []) == Turn(t2.state, None, []);
  }

  lemma SavedSecondVisit(s: State, skip: Outcome)
    requires s.node == "a" && s.pending.None? && s.outcomes == [("a", PassedOutcome), ("b", skip)] && skip.status.Skipped?
    ensures var g := TwoNodes(false);
      && Derived(g, s.outcomes) == map[] && Checkpointed(g, Rederived(g, s), CompletedNode(PassedOutcome))
      && PickedAlike(g, s.node, "", "")
  {
    var g := TwoNodes(false);
    assert !g.nodes["b"].IsExit() by { assert |Lower("b")| == 1; }
    assert !g.nodes["a"].IsExit() by { assert |Lower("a")| == 1; }
    assert s.outcomes[..1] == [("a", PassedOutcome)] && s.outcomes[..1][..0] == [];
    assert OutputsOf(g, "b") == {} && Populate(g, map[], "b") == map[];
    assert Derived(g, []) == map[] && Derived(g, s.outcomes[..1]) == map[];
    LookupFirst(s.outcomes, "a", 0);
  }

  /** What the next turn does at `b`, under a table that holds `k` and under the empty one. */
  lemma NextAtB(s: State)
    requires s.node == "b" && s.pending.None? && s.steps < 100
    ensures var g := TwoNodes(false);
      var d := Deeds(Iterate(g, s, Succeeds).events);
      && (s.failed == map["k" := "a"] ==> d == [Ended("b", SkipOutcome(g, s), false)])
      && (s.failed == map[] ==> d != [] && d[0] == Started("b"))
  {
    hide Iterate;
    hide Work;
    hide SkipOutcome;
    var g := TwoNodes(false);
    assert !g.nodes["b"].IsExit() by { assert |Lower("b")| == 1; }
    WorkDeeds(g, s, Succeeds);
    TurnDeeds(g, s, Succeeds);
    assert |g.nodes| == 2;
    assert s.failed == map["k" := "a"] ==> "k" in FailedRefs(g, s);
    assert s.failed == map[] ==> FailedRefs(g, s) == {};
    hide FailedRefs;
    hide Deeds;
  }

  /**
   * A run that gets there: `a` fails, `b` is skipped for it, `a` is visited again and succeeds, and the process dies
   * at that save. The live table still holds the key, so live `b` is skipped again; the derived one does not, so the
   * resumed process executes it.
   */
  lemma ResumedRunsTheSkipped()
    ensures var g := TwoNodes(false);
      var s := Walk(g, Fresh("a", map[]), [TimesOut, Succeeds]).state;
      WellFormed(g) && s.node in g.nodes &&
      var h := Work(g, s, Succeeds);
      h.Go? && h.phase.CompletedNode? && h.state.node in g.nodes &&
      var u, v := Route(g, h.state, h.phase, ""), Resumed(g, h.state, Succeeds, "");
      u.result.None? && v.result.None? && u.state.node in g.nodes && v.state.node in g.nodes &&
      var live, resumed := Deeds(Iterate(g, u.state, Succeeds).events), Deeds(Iterate(g, v.state, Succeeds).events);
      live == [Ended("b", SkipOutcome(g, u.state), false)] && resumed != [] && resumed[0] == Started("b")
  {
    hide Work;
    hide Walk;
    hide Route;
    hide Resumed;
    hide Iterate;
    hide Checkpointed;
    hide Derived;
    hide SkipOutcome;
    hide Deeds;
    var g := TwoNodes(false);
    UpToSecondVisit();
    var s := Walk(g, Fresh("a", map[]), [TimesOut, Succeeds]).state;
    SecondVisit(s);
    var h := Work(g, s, Succeeds);
    SavedSecondVisit(h.state, s.outcomes[1].1);
    FirstRoute(false, h.state, PassedOutcome);
    FirstRoute(false, Rederived(g, h.state), PassedOutcome);
    assert |g.nodes| == 2;
    FirstTurnAgrees(g, h.state, h.phase, Succeeds, "");
    NextAtB(Route(g, h.state, h.phase, "").state);
    NextAtB(Resumed(g, h.state, Succeeds, "").state);
  }
}
