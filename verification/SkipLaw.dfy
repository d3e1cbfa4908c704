/**
 * Skip propagation over whole runs, read off the trace of events alone: which nodes may run, which
 * are skipped, and what the table of failed outputs holds at every point.
 */
module SkipLaw {
  import opened Prelude
  import opened Outcomes
  import opened Graphs
  import opened Checkpoints
  import opened EngineModel

  /** A completion that fails its node's outputs: an engine skip, or an executed FAIL. */
  predicate Marks(e: Event) {
    e.Recorded? && (!e.ran || e.outcome.status.Fail?)
  }

  function Step(g: Graph, table: map<Key, NodeId>, e: Event): map<Key, NodeId> {
    if e.Cleared? then map[]
    else if Marks(e) then Populate(g, table, e.node)
    else table
  }

  /** The table of failed outputs after a trace. */
  function Ledger(g: Graph, table: map<Key, NodeId>, trace: seq<Event>): map<Key, NodeId> {
    if trace == [] then table
    else Step(g, Ledger(g, table, trace[..|trace| - 1]), trace[|trace| - 1])
  }

  predicate Blocks(g: Graph, table: map<Key, NodeId>, id: NodeId) {
    exists k :: k in RefsOf(g, id) && k in table
  }

  /** Every run in the trace was unblocked at its point, every engine skip blocked at its. */
  ghost predicate Lawful(g: Graph, table: map<Key, NodeId>, trace: seq<Event>) {
    forall j :: 0 <= j < |trace| ==> LawfulAt(g, Ledger(g, table, trace[..j]), trace[j])
  }

  predicate LawfulAt(g: Graph, table: map<Key, NodeId>, e: Event) {
    && (e.Ran? ==> !Blocks(g, table, e.node))
    && (e.Recorded? && !e.ran ==> Blocks(g, table, e.node))
  }

  lemma {:induction false} LedgerConcat(g: Graph, table: map<Key, NodeId>, a: seq<Event>, b: seq<Event>)
    ensures Ledger(g, table, a + b) == Ledger(g, Ledger(g, table, a), b)
  {
    if b == [] {
      assert a + b == a;
    } else {
      var n := |b| - 1;
      assert (a + b)[..|a + b| - 1] == a + b[..n];
      LedgerConcat(g, table, a, b[..n]);
    }
  }

  lemma LawfulConcat(g: Graph, table: map<Key, NodeId>, a: seq<Event>, b: seq<Event>)
    requires Lawful(g, table, a) && Lawful(g, Ledger(g, table, a), b)
    ensures Lawful(g, table, a + b)
  {
    hide LawfulAt;
    forall j | 0 <= j < |a + b| ensures LawfulAt(g, Ledger(g, table, (a + b)[..j]), (a + b)[j]) {
      if j < |a| {
        assert (a + b)[..j] == a[..j];
      } else {
        assert (a + b)[..j] == a + b[..j - |a|];
        LedgerConcat(g, table, a, b[..j - |a|]);
        assert (a + b)[j] == b[j - |a|];
      }
    }
  }

  // ---------------------------------------------------------------------------
  // The engine keeps the law
  // ---------------------------------------------------------------------------

  lemma ExecuteLaw(g: Graph, s: State, inp: Input)
    requires s.node in g.nodes
    ensures var h := Execute(g, s, inp);
      && h.events != [] && h.events[0].Ran? && h.events[0].node == s.node
      && (h.Halt? ==> h.state.failed == s.failed)
      && (h.Go? ==> h.phase.CompletedNode?)
      && (h.Go? ==> h.state.failed == if h.phase.outcome.status.Fail? then Populate(g, s.failed, s.node) else s.failed)
  {
    hide Verdict;
    hide Snapshot;
    hide Assign;
    hide Populate;
    hide FaultText;
    hide AfterUpdates;
    hide ShownContext;
    hide Visit;
  }

  lemma SkipMarks(g: Graph, s: State, o: Outcome)
    ensures SkipRecorded(g, s, o).failed == Populate(g, s.failed, s.node)
  {
  }

  /** One first half: what it runs or skips, and how it moves the table. */
  lemma WorkLaw(g: Graph, s: State, inp: Input)
    requires s.node in g.nodes
    ensures var h := Work(g, s, inp);
      && (h.events != [] && h.events[0].Ran? ==> h.events[0].node == s.node && !Blocks(g, s.failed, s.node))
      && (h.Go? && h.phase.SkippedNode? ==>
            Blocks(g, s.failed, s.node) && h.state.failed == Populate(g, s.failed, s.node))
      && (h.Go? && h.phase.AtExit? ==> h.state.failed == s.failed)
      && (h.Go? && h.phase.CompletedNode? && h.events == [] ==> h.state.failed == s.failed)
      && (h.Go? && h.phase.CompletedNode? && h.events != [] ==>
            h.state.failed == if h.phase.outcome.status.Fail? then Populate(g, s.failed, s.node) else s.failed)
      && (h.Halt? ==> h.state.failed == s.failed)
  {
    hide Execute;
    hide Snapshot;
    hide SkipRecorded;
    hide Populate;
    hide FailedRefs;
    hide SkipOutcome;
    hide Blocks;
    hide Exceeded;
    var s1 := s.(steps := s.steps + 1);
    ExecuteLaw(g, s1, inp);
    BlocksIsRefs(g, s1);
    SkipMarks(g, s1, SkipOutcome(g, s1));
  }

  lemma BlocksIsRefs(g: Graph, s: State)
    ensures Blocks(g, s.failed, s.node) <==> FailedRefs(g, s) != {}
  {
    if Blocks(g, s.failed, s.node) {
      var k :| k in RefsOf(g, s.node) && k in s.failed;
      assert k in FailedRefs(g, s);
    } else {
      assert FailedRefs(g, s) == {};
    }
  }

  lemma LedgerOfThree(g: Graph, table: map<Key, NodeId>, t: seq<Event>)
    requires |t| <= 3
    ensures |t| == 0 ==> Ledger(g, table, t) == table
    ensures |t| >= 1 ==> Ledger(g, table, t[..1]) == Step(g, table, t[0])
    ensures |t| >= 2 ==> Ledger(g, table, t[..2]) == Step(g, Step(g, table, t[0]), t[1])
    ensures |t| >= 3 ==> Ledger(g, table, t) == Step(g, Step(g, Step(g, table, t[0]), t[1]), t[2])
  {
    hide Step;
    if |t| >= 1 {
      assert t[..1][..0] == [];
      assert Ledger(g, table, []) == table;
    }
    if |t| >= 2 { assert t[..2][..1] == t[..1]; }
    if |t| >= 3 { assert t[..3] == t; }
  }

  lemma WorkLawful(g: Graph, s: State, inp: Input)
    requires s.node in g.nodes
    ensures var h := Work(g, s, inp);
      Lawful(g, s.failed, h.events) && h.state.failed == Ledger(g, s.failed, h.events)
  {
    hide Work;
    hide Verdict;
    hide Populate;
    hide Blocks;
    hide Snapshot;
    WorkEvents(g, s, inp);
    WorkLaw(g, s, inp);
    var h := Work(g, s, inp);
    var t := h.events;
    LedgerOfThree(g, s.failed, t);
    hide Ledger;
    if |t| == 1 { assert t[..1] == t; }
    if |t| == 2 { assert t[..2] == t; }
    forall j | 0 <= j < |t| ensures LawfulAt(g, Ledger(g, s.failed, t[..j]), t[j]) {
      if j == 0 { assert t[..0] == []; LedgerOfThree(g, s.failed, []); }
    }
  }

  lemma RouteLawful(g: Graph, s: State, phase: Phase, prefer: NodeId)
    requires s.node in g.nodes
    ensures var t := Route(g, s, phase, prefer);
      Lawful(g, s.failed, t.events) && t.state.failed == Ledger(g, s.failed, t.events)
  {
    RouteFrame(g, s, phase, prefer);
    hide Route;
    LedgerOfThree(g, s.failed, []);
    LedgerOfThree(g, s.failed, [Cleared]);
    assert [Cleared][..1] == [Cleared];
    hide Ledger;
  }

  /** Along a whole walk the law holds, and the live table is exactly the ledger of the trace. */
  lemma {:induction false} WalkLawful(g: Graph, s: State, inputs: seq<Input>)
    requires WellFormed(g) && s.node in g.nodes
    ensures var t := Walk(g, s, inputs);
      Lawful(g, s.failed, t.events) && t.state.failed == Ledger(g, s.failed, t.events)
    decreases |inputs|
  {
    hide Work;
    hide Route;
    hide Lawful;
    if inputs == [] {
      LawfulEmpty(g, s.failed);
    } else {
      var inp := inputs[0];
      var h := Work(g, s, inp);
      var t := Iterate(g, s, inp);
      WorkFrame(g, s, inp);
      WorkLawful(g, s, inp);
      StaysInGraph(g, s, inp);
      if h.Go? {
        var r := Route(g, h.state, h.phase, inp.prefer);
        RouteLawful(g, h.state, h.phase, inp.prefer);
        LawfulConcat(g, s.failed, h.events, r.events);
        LedgerConcat(g, s.failed, h.events, r.events);
      }
      hide Iterate;
      if t.result.None? {
        var rest := Walk(g, t.state, inputs[1..]);
        WalkLawful(g, t.state, inputs[1..]);
        LawfulConcat(g, s.failed, t.events, rest.events);
        LedgerConcat(g, s.failed, t.events, rest.events);
      }
    }
  }

  lemma LawfulEmpty(g: Graph, table: map<Key, NodeId>)
    ensures Lawful(g, table, []) && Ledger(g, table, []) == table
  {
  }

  // ---------------------------------------------------------------------------
  // The same, without tables: only positions in the trace
  // ---------------------------------------------------------------------------

  /** Position `i` marks a producer of `k`, and nothing clears between it and `j`. */
  ghost predicate FailsKey(g: Graph, trace: seq<Event>, i: int, j: int, k: Key) {
    && 0 <= i < j <= |trace|
    && Marks(trace[i]) && k in OutputsOf(g, trace[i].node)
    && forall m :: i < m < j ==> !trace[m].Cleared?
  }

  /** `i` is the first such position since the last clear. */
  ghost predicate FirstFails(g: Graph, trace: seq<Event>, i: int, j: int, k: Key) {
    FailsKey(g, trace, i, j, k) && forall h :: FailsKey(g, trace, h, j, k) ==> i <= h
  }

  /** The ledger holds a key exactly when some completion since the last clear failed it, under the first such producer. */
  lemma {:induction false} LedgerContents(g: Graph, trace: seq<Event>, k: Key)
    ensures k in Ledger(g, map[], trace) <==> exists i :: FailsKey(g, trace, i, |trace|, k)
    ensures k in Ledger(g, map[], trace) ==>
      exists i :: FirstFails(g, trace, i, |trace|, k) && Ledger(g, map[], trace)[k] == trace[i].node
  {
    if trace != [] {
      var n := |trace| - 1;
      var before, last := trace[..n], trace[n];
      LedgerContents(g, before, k);
      var old_ := Ledger(g, map[], before);
      hide Ledger;
      forall i ensures FailsKey(g, trace, i, |trace|, k) <==>
        (i == n && Marks(last) && k in OutputsOf(g, last.node)) || (!last.Cleared? && FailsKey(g, before, i, n, k))
      {
        FailsKeyStep(g, trace, i, k);
      }
      if !last.Cleared? && k in old_ {
        var i :| FirstFails(g, before, i, n, k) && old_[k] == before[i].node;
        assert FirstFails(g, trace, i, |trace|, k);
      } else if Marks(last) && k in OutputsOf(g, last.node) {
        assert FirstFails(g, trace, n, |trace|, k);
      }
    }
  }

  lemma FailsKeyStep(g: Graph, trace: seq<Event>, i: int, k: Key)
    requires trace != []
    ensures var n := |trace| - 1;
      FailsKey(g, trace, i, |trace|, k) <==>
        (i == n && Marks(trace[n]) && k in OutputsOf(g, trace[n].node)) ||
        (!trace[n].Cleared? && FailsKey(g, trace[..n], i, n, k))
  {
    var n := |trace| - 1;
    assert forall m :: 0 <= m < n ==> trace[..n][m] == trace[m];
    if FailsKey(g, trace, i, |trace|, k) && i < n {
      assert !trace[n].Cleared?;
    }
  }

  /** Position `j` comes after an uncleared failure of something node `id` refers to. */
  ghost predicate DependsOnFailure(g: Graph, trace: seq<Event>, j: int, id: NodeId) {
    exists i, k :: k in RefsOf(g, id) && FailsKey(g, trace, i, j, k)
  }

  /**
   * In a fresh run no handler ever executes on a node that refers to an output of a node that failed or
   * was skipped since the last clear; and the engine skips a node only when that is so. A skip marks
   * the skipped node's own outputs, so skipping is transitive.
   */
  lemma SkipsPropagateExactly(g: Graph, start: NodeId, ctx: Context, inputs: seq<Input>, j: int)
    requires WellFormed(g) && start in g.nodes
    requires 0 <= j < |Walk(g, Fresh(start, ctx), inputs).events|
    ensures var trace := Walk(g, Fresh(start, ctx), inputs).events;
      && (trace[j].Ran? ==> !DependsOnFailure(g, trace, j, trace[j].node))
      && (trace[j].Recorded? && !trace[j].ran ==> DependsOnFailure(g, trace, j, trace[j].node))
  {
    WalkLawful(g, Fresh(start, ctx), inputs);
    var trace := Walk(g, Fresh(start, ctx), inputs).events;
    hide Walk;
    assert LawfulAt(g, Ledger(g, map[], trace[..j]), trace[j]);
    if trace[j].Ran? || trace[j].Recorded? {
      BlocksByTrace(g, trace, j, trace[j].node);
    }
  }

  lemma BlocksByTrace(g: Graph, trace: seq<Event>, j: int, id: NodeId)
    requires 0 <= j < |trace|
    ensures Blocks(g, Ledger(g, map[], trace[..j]), id) <==> DependsOnFailure(g, trace, j, id)
  {
    var prefix := trace[..j];
    forall i, k ensures FailsKey(g, prefix, i, j, k) <==> FailsKey(g, trace, i, j, k) {
      assert forall m :: 0 <= m < j ==> prefix[m] == trace[m];
    }
    forall k ensures k in Ledger(g, map[], prefix) <==> exists i :: FailsKey(g, prefix, i, j, k) {
      LedgerContents(g, prefix, k);
    }
    hide Ledger;
    hide FailsKey;
    if Blocks(g, Ledger(g, map[], prefix), id) {
      var k :| k in RefsOf(g, id) && k in Ledger(g, map[], prefix);
      var i :| FailsKey(g, prefix, i, j, k);
      assert FailsKey(g, trace, i, j, k);
    }
  }

  /** What the live table holds at the end of a fresh walk, entry by entry. */
  lemma TableIsAccountedFor(g: Graph, start: NodeId, ctx: Context, inputs: seq<Input>, k: Key)
    requires WellFormed(g) && start in g.nodes
    ensures var t := Walk(g, Fresh(start, ctx), inputs);
      && (k in t.state.failed <==> exists i :: FailsKey(g, t.events, i, |t.events|, k))
      && (k in t.state.failed ==>
            exists i :: FirstFails(g, t.events, i, |t.events|, k) && t.state.failed[k] == t.events[i].node)
  {
    WalkLawful(g, Fresh(start, ctx), inputs);
    LedgerContents(g, Walk(g, Fresh(start, ctx), inputs).events, k);
  }

  // ---------------------------------------------------------------------------
  // The same from any table, as a resumed process starts with one
  // ---------------------------------------------------------------------------

  ghost predicate Uncleared(trace: seq<Event>, j: int) {
    forall m :: 0 <= m < j && m < |trace| ==> !trace[m].Cleared?
  }

  /** A key is failed at the end of a trace exactly when a completion since the last clear failed it, or the table had it and nothing was cleared. */
  lemma {:induction false} LedgerFrom(g: Graph, table: map<Key, NodeId>, trace: seq<Event>, k: Key)
    ensures k in Ledger(g, table, trace) <==>
      (exists i :: FailsKey(g, trace, i, |trace|, k)) || (k in table && Uncleared(trace, |trace|))
  {
    if trace != [] {
      var n := |trace| - 1;
      var before, last := trace[..n], trace[n];
      LedgerFrom(g, table, before, k);
      var held := Ledger(g, table, before);
      assert Ledger(g, table, trace) == Step(g, held, last);
      hide Ledger;
      forall i ensures FailsKey(g, trace, i, |trace|, k) <==>
        (i == n && Marks(last) && k in OutputsOf(g, last.node)) || (!last.Cleared? && FailsKey(g, before, i, n, k))
      {
        FailsKeyStep(g, trace, i, k);
      }
      hide FailsKey;
      assert Uncleared(trace, |trace|) <==> Uncleared(before, n) && !last.Cleared? by {
        assert forall m :: 0 <= m < n ==> before[m] == trace[m];
      }
      hide Uncleared;
      if Marks(last) && k in OutputsOf(g, last.node) { assert FailsKey(g, trace, n, |trace|, k); }
    }
  }

  /** At `j` node `id` refers to something failed since the last clear, or failed from the start and never cleared. */
  ghost predicate DependsFrom(g: Graph, table: map<Key, NodeId>, trace: seq<Event>, j: int, id: NodeId) {
    exists k :: k in RefsOf(g, id) && ((exists i :: FailsKey(g, trace, i, j, k)) || (k in table && Uncleared(trace, j)))
  }

  /** Skip propagation in any process, whatever table it starts with: a handler runs only where nothing referred to has failed, and the engine skips only where something has. */
  lemma SkipsPropagateFrom(g: Graph, s: State, inputs: seq<Input>, j: int)
    requires WellFormed(g) && s.node in g.nodes && 0 <= j < |Walk(g, s, inputs).events|
    ensures var trace := Walk(g, s, inputs).events;
      && (trace[j].Ran? ==> !DependsFrom(g, s.failed, trace, j, trace[j].node))
      && (trace[j].Recorded? && !trace[j].ran ==> DependsFrom(g, s.failed, trace, j, trace[j].node))
  {
    WalkLawful(g, s, inputs);
    var trace := Walk(g, s, inputs).events;
    hide Walk;
    assert LawfulAt(g, Ledger(g, s.failed, trace[..j]), trace[j]);
    if trace[j].Ran? || trace[j].Recorded? { BlocksFrom(g, s.failed, trace, j, trace[j].node); }
  }

  lemma BlocksFrom(g: Graph, table: map<Key, NodeId>, trace: seq<Event>, j: int, id: NodeId)
    requires 0 <= j < |trace|
    ensures Blocks(g, Ledger(g, table, trace[..j]), id) <==> DependsFrom(g, table, trace, j, id)
  {
    var prefix := trace[..j];
    assert forall m :: 0 <= m < j ==> prefix[m] == trace[m];
    forall i, k ensures FailsKey(g, prefix, i, j, k) <==> FailsKey(g, trace, i, j, k) {
    }
    assert Uncleared(prefix, j) <==> Uncleared(trace, j);
    hide Ledger;
    hide FailsKey;
    hide Uncleared;
    forall k ensures k in Ledger(g, table, prefix) <==>
      (exists i :: FailsKey(g, trace, i, j, k)) || (k in table && Uncleared(trace, j))
    {
      LedgerFrom(g, table, prefix, k);
      if i :| FailsKey(g, prefix, i, j, k) { assert FailsKey(g, trace, i, j, k); }
      if i :| FailsKey(g, trace, i, j, k) { assert FailsKey(g, prefix, i, j, k); }
    }
  }
}
