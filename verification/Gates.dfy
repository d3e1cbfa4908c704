/**
 * Fail-closed goal gates and artifact contracts over whole walks: what a non-failing result
 * implies about every recorded outcome, and where each recorded outcome came from.
 */
module Gates {
  import opened Prelude
  import opened Outcomes
  import opened Graphs
  import opened NodeFiles
  import opened Retry
  import opened Checkpoints
  import opened EngineModel
  import opened Kills

  // ---------------------------------------------------------------------------
  // One node's verdict
  // ---------------------------------------------------------------------------

  /** The last attempt the ladder made asserted `o` itself: the handler's own explicit outcome, or its status.json. */
  ghost predicate Asserted(n: Node, inp: Input, o: Outcome) {
    inp.execution.RanLadder? &&
    var w := inp.execution.world;
    var k := Ladder(n, w).calls;
    var a := w.attempts(k);
    a.answer.Returned? &&
    (a.answer.outcome.isExplicit || ReadStatusOverride(n, a.file, a.start, a.answer.outcome).Some?) &&
    o == Judged(n, a).(attemptCount := Some(k))
  }

  /**
   * No override manufactures an explicit verdict or gets past the artifact contract:
   * not promotion, not partial acceptance, not a partial timeout.
   */
  lemma VerdictLaw(n: Node, inp: Input)
    requires Verdict(n, inp).Some?
    ensures var o := Verdict(n, inp).value;
      && !o.status.Retry?
      && (o.isExplicit ==> Asserted(n, inp, o))
      && (o.IsSuccess() && n.mustWrite ==> Delivered(inp.artifact, inp.start))
  {
    hide CheckMustWrite;
    hide Ladder;
    hide Judged;
    if inp.execution.RanLadder? {
      var w := inp.execution.world;
      LadderTrace(n, w);
      ExplicitIsAsserted(n, w);
    }
  }

  // ---------------------------------------------------------------------------
  // Executions in a trace
  // ---------------------------------------------------------------------------

  /** At `i` node `id` begins to execute, and `v`, the verdict on what it met, is recorded right after. */
  ghost predicate ExecutedAt(g: Graph, trace: seq<Event>, i: int, id: NodeId, v: Outcome) {
    && 0 <= i && i + 1 < |trace| && trace[i].Ran? && trace[i].node == id && trace[i + 1] == Recorded(id, v, true)
    && id in g.nodes && Verdict(g.nodes[id], trace[i].inp) == Some(v)
  }

  /** After `i` nothing is cleared and nothing more is recorded for `id`. */
  ghost predicate Latest(trace: seq<Event>, i: int, id: NodeId) {
    0 <= i && forall j :: i < j < |trace| ==> !trace[j].Cleared? && !(trace[j].Recorded? && trace[j].node == id)
  }

  /** Some completion of `id` was recorded and nothing was cleared since. */
  ghost predicate CompletedSince(trace: seq<Event>, id: NodeId) {
    exists i :: 0 <= i < |trace| && trace[i].Recorded? && trace[i].node == id &&
                forall m :: i < m < |trace| ==> !trace[m].Cleared?
  }

  /** `o` is, up to what a checkpoint drops, the verdict of the latest execution of `id`, not cleared since. */
  ghost predicate Vouched(g: Graph, trace: seq<Event>, id: NodeId, o: Outcome) {
    exists i, v :: ExecutedAt(g, trace, i, id, v) && Latest(trace, i + 1, id) && Durable(v) == Durable(o)
  }

  predicate Asserts(o: Outcome) {
    o.isExplicit || o.IsSuccess()
  }

  /** Where everything in the outcome table comes from, and that everything recorded since the last clear is in it. */
  ghost predicate Provenance(g: Graph, trace: seq<Event>, s: State) {
    && DistinctKeys(s.outcomes)
    && (forall e :: e in s.outcomes ==> e.0 in g.nodes && (Asserts(e.1) ==> Vouched(g, trace, e.0, e.1)))
    && (forall id :: CompletedSince(trace, id) ==> Has(s.outcomes, id))
  }

  /** Events that record nothing for `id` and clear nothing. */
  ghost predicate Silent(more: seq<Event>, id: NodeId) {
    forall j :: 0 <= j < |more| ==> !more[j].Cleared? && !(more[j].Recorded? && more[j].node == id)
  }

  lemma VouchedGrows(g: Graph, trace: seq<Event>, more: seq<Event>, id: NodeId, o: Outcome)
    requires Vouched(g, trace, id, o) && Silent(more, id)
    ensures Vouched(g, trace + more, id, o)
  {
    hide Verdict;
    hide Durable;
    var i, v :| ExecutedAt(g, trace, i, id, v) && Latest(trace, i + 1, id) && Durable(v) == Durable(o);
    var t := trace + more;
    assert forall j :: 0 <= j < |trace| ==> t[j] == trace[j];
    assert forall j :: |trace| <= j < |t| ==> t[j] == more[j - |trace|];
    assert ExecutedAt(g, t, i, id, v);
  }

  lemma CompletedBefore(trace: seq<Event>, more: seq<Event>, id: NodeId)
    requires CompletedSince(trace + more, id) && Silent(more, id)
    ensures CompletedSince(trace, id)
  {
    var t := trace + more;
    var i :| 0 <= i < |t| && t[i].Recorded? && t[i].node == id && forall m :: i < m < |t| ==> !t[m].Cleared?;
    assert forall j :: |trace| <= j < |t| ==> t[j] == more[j - |trace|];
    assert forall m :: i < m < |trace| ==> trace[m] == t[m];
    assert trace[i] == t[i];
  }

  /** Nothing recorded, nothing cleared: provenance stays. */
  lemma ProvenanceKept(g: Graph, trace: seq<Event>, s: State, t: State, more: seq<Event>)
    requires Provenance(g, trace, s) && t.outcomes == s.outcomes
    requires forall j :: 0 <= j < |more| ==> !more[j].Cleared? && !more[j].Recorded?
    ensures Provenance(g, trace + more, t)
  {
    hide Vouched;
    hide CompletedSince;
    forall e | e in t.outcomes && Vouched(g, trace, e.0, e.1) ensures Vouched(g, trace + more, e.0, e.1) {
      VouchedGrows(g, trace, more, e.0, e.1);
    }
    forall id | CompletedSince(trace + more, id) ensures CompletedSince(trace, id) { CompletedBefore(trace, more, id); }
  }

  lemma ProvenanceCleared(g: Graph, trace: seq<Event>, t: State)
    requires t.outcomes == [] && trace != [] && trace[|trace| - 1].Cleared?
    ensures Provenance(g, trace, t)
  {
  }

  /** A record for `id`, vouched for where it asserts something. */
  lemma ProvenanceAssign(g: Graph, trace: seq<Event>, s: State, t: State, id: NodeId, o: Outcome, more: seq<Event>)
    requires Provenance(g, trace, s) && t.outcomes == Assign(s.outcomes, id, o) && id in g.nodes
    requires forall j :: 0 <= j < |more| ==> !more[j].Cleared? && (more[j].Recorded? ==> more[j].node == id)
    requires Asserts(o) ==> Vouched(g, trace + more, id, o)
    ensures Provenance(g, trace + more, t)
  {
    AssignFacts(s.outcomes, id, o);
    hide Assign;
    hide Vouched;
    hide Asserts;
    hide CompletedSince;
    hide Lookup;
    hide Has;
    forall e | e in t.outcomes && e.0 != id && Vouched(g, trace, e.0, e.1) ensures Vouched(g, trace + more, e.0, e.1) {
      VouchedGrows(g, trace, more, e.0, e.1);
    }
    forall other | CompletedSince(trace + more, other) ensures Has(t.outcomes, other) {
      if other == id {
        HasEntry(t.outcomes, (id, o));
      } else {
        CompletedBefore(trace, more, other);
        LookupEntry(s.outcomes, other);
        HasEntry(t.outcomes, (other, Lookup(s.outcomes, other).value));
      }
    }
  }

  lemma HasEntry(a: Assoc<NodeId, Outcome>, e: (NodeId, Outcome))
    requires e in a
    ensures Has(a, e.0)
  {
  }

  /** How the first half changes the outcome table. */
  lemma WorkRecords(g: Graph, s: State, inp: Input)
    requires s.node in g.nodes
    ensures var h := Work(g, s, inp);
      || h.state.outcomes == s.outcomes
      || exists o :: h.state.outcomes == Assign(s.outcomes, s.node, o) &&
           ((!o.isExplicit && !o.IsSuccess()) || Verdict(g.nodes[s.node], inp) == Some(o))
  {
    hide Verdict;
    hide Snapshot;
    hide Assign;
    hide Populate;
    hide FaultText;
    hide AfterUpdates;
  }

  /** The execution just recorded vouches for what it recorded. */
  lemma JustExecuted(g: Graph, trace: seq<Event>, more: seq<Event>, id: NodeId, o: Outcome)
    requires |more| == 3 && ExecutedAt(g, more, 0, id, o) && more[2].Saved?
    ensures Vouched(g, trace + more, id, o)
  {
    hide Verdict;
    var t := trace + more;
    assert t[|trace|] == more[0] && t[|trace| + 1] == more[1] && t[|trace| + 2] == more[2];
    assert ExecutedAt(g, t, |trace|, id, o) && Latest(t, |trace| + 1, id);
  }

  /** What the engine records for a node whose child graph cannot be resolved. */
  function FaultOutcome(n: Node, inp: Input): (o: Outcome)
    ensures !Asserts(o)
  {
    Synthetic(Fail, Some(Plain(FaultText(n, inp))), Some(Plain(FaultText(n, inp))))
  }

  /** What the first half records in the table, by its phase. */
  lemma WorkTable(g: Graph, s: State, inp: Input)
    requires s.node in g.nodes
    ensures var h := Work(g, s, inp);
      && (h.Halt? && h.state.outcomes != s.outcomes ==>
            h.state.outcomes == Assign(s.outcomes, s.node, FaultOutcome(g.nodes[s.node], inp)))
      && (h.Go? && (h.phase.AtExit? || h.events == []) ==> h.state.outcomes == s.outcomes)
      && (h.Go? && !h.phase.AtExit? && h.events != [] ==> h.state.outcomes == Assign(s.outcomes, s.node, h.phase.outcome))
      && (h.Go? && h.phase.SkippedNode? ==> !Asserts(h.phase.outcome))
  {
    hide Verdict;
    hide Snapshot;
    hide Assign;
    hide Populate;
    hide FaultText;
    hide AfterUpdates;
    hide ShownContext;
    hide FailedRefs;
    hide Visit;
  }

  lemma WorkProvenance(g: Graph, trace: seq<Event>, s: State, inp: Input)
    requires s.node in g.nodes && Provenance(g, trace, s)
    ensures Provenance(g, trace + Work(g, s, inp).events, Work(g, s, inp).state)
  {
    hide Work;
    hide Verdict;
    hide Provenance;
    hide Assign;
    hide Snapshot;
    hide Asserts;
    hide FaultOutcome;
    hide Vouched;
    WorkEvents(g, s, inp);
    WorkTable(g, s, inp);
    var h := Work(g, s, inp);
    if h.Halt? {
      if h.state.outcomes == s.outcomes {
        ProvenanceKept(g, trace, s, h.state, h.events);
      } else {
        ProvenanceAssign(g, trace, s, h.state, s.node, FaultOutcome(g.nodes[s.node], inp), h.events);
      }
    } else if h.phase.AtExit? || h.events == [] {
      ProvenanceKept(g, trace, s, h.state, h.events);
    } else {
      if h.phase.CompletedNode? { JustExecuted(g, trace, h.events, s.node, h.phase.outcome); }
      ProvenanceAssign(g, trace, s, h.state, s.node, h.phase.outcome, h.events);
    }
  }

  lemma IterateProvenance(g: Graph, trace: seq<Event>, s: State, inp: Input)
    requires s.node in g.nodes && Provenance(g, trace, s)
    ensures Provenance(g, trace + Iterate(g, s, inp).events, Iterate(g, s, inp).state)
  {
    hide Work;
    hide Route;
    hide Provenance;
    WorkFrame(g, s, inp);
    WorkProvenance(g, trace, s, inp);
    var h := Work(g, s, inp);
    if h.Go? {
      var r := Route(g, h.state, h.phase, inp.prefer);
      RouteFrame(g, h.state, h.phase, inp.prefer);
      assert trace + (h.events + r.events) == trace + h.events + r.events;
      if r.events == [] {
        ProvenanceKept(g, trace + h.events, h.state, r.state, r.events);
      } else {
        ProvenanceCleared(g, trace + h.events + r.events, r.state);
      }
    }
  }

  /** The three per-attempt tables, unchanged or emptied together. */
  predicate KeepsOrClears(s: State, t: State) {
    (t.outcomes == s.outcomes && t.failed == s.failed && t.completed == s.completed) || Emptied(t)
  }

  predicate Emptied(t: State) {
    t.outcomes == [] && t.failed == map[] && t.completed == []
  }

  lemma RouteKeepsOrClears(g: Graph, s: State, phase: Phase, prefer: NodeId)
    requires s.node in g.nodes
    ensures KeepsOrClears(s, Route(g, s, phase, prefer).state)
  {
    RouteFrame(g, s, phase, prefer);
    hide Route;
  }

  lemma {:induction false} WalkProvenance(g: Graph, trace: seq<Event>, s: State, inputs: seq<Input>)
    requires WellFormed(g) && s.node in g.nodes && Provenance(g, trace, s)
    ensures Provenance(g, trace + Walk(g, s, inputs).events, Walk(g, s, inputs).state)
    decreases |inputs|
  {
    hide Iterate;
    hide Provenance;
    if inputs == [] {
      assert trace + [] == trace;
    } else {
      StaysInGraph(g, s, inputs[0]);
      IterateProvenance(g, trace, s, inputs[0]);
      var t := Iterate(g, s, inputs[0]);
      if t.result.None? {
        WalkProvenance(g, trace + t.events, t.state, inputs[1..]);
        var rest := Walk(g, t.state, inputs[1..]);
        assert trace + t.events + rest.events == trace + (t.events + rest.events);
      }
    }
  }

  /** A resumed process inherits the provenance of the one that saved. */
  lemma RestoreProvenance(g: Graph, trace: seq<Event>, s: State)
    requires s.node in g.nodes && Provenance(g, trace, s)
    ensures ValidRecords(Snapshot(g, s).nodeOutcomes)
    ensures Provenance(g, trace, Restore(g, Snapshot(g, s)))
  {
    OutcomesRoundTrip(s.outcomes);
    assert Restore(g, Snapshot(g, s)).outcomes == DurableAll(s.outcomes);
    hide Restore;
    hide Snapshot;
    DurableProvenance(g, trace, s, Restore(g, Snapshot(g, s)));
    hide Provenance;
  }

  lemma DurableProvenance(g: Graph, trace: seq<Event>, s: State, r: State)
    requires Provenance(g, trace, s) && r.outcomes == DurableAll(s.outcomes)
    ensures Provenance(g, trace, r)
  {
    hide Vouched;
    hide CompletedSince;
    hide Asserts;
    hide Durable;
    var d := r.outcomes;
    forall e | e in d ensures e.0 in g.nodes && (Asserts(e.1) ==> Vouched(g, trace, e.0, e.1)) {
      var i :| 0 <= i < |d| && d[i] == e;
      assert s.outcomes[i] in s.outcomes;
      DurableVouched(g, trace, e.0, s.outcomes[i].1);
    }
    forall id | CompletedSince(trace, id) ensures Has(d, id) {
      var i :| 0 <= i < |s.outcomes| && s.outcomes[i].0 == id;
      assert d[i].0 == id;
    }
  }

  lemma DurableVouched(g: Graph, trace: seq<Event>, id: NodeId, o: Outcome)
    ensures Asserts(Durable(o)) <==> Asserts(o)
    ensures Vouched(g, trace, id, o) ==> Vouched(g, trace, id, Durable(o))
  {
    DurableTwice(o);
  }

  // ---------------------------------------------------------------------------
  // The gate theorem
  // ---------------------------------------------------------------------------

  lemma {:induction false} UnsatisfiedExactly(g: Graph, outcomes: Assoc<NodeId, Outcome>)
    ensures Unsatisfied(g, outcomes) == [] <==> forall e :: e in outcomes && IsGate(g, e.0) ==> GateMet(e.1)
  {
    if outcomes != [] {
      UnsatisfiedExactly(g, outcomes[1..]);
      assert forall e :: e in outcomes <==> e == outcomes[0] || e in outcomes[1..];
    }
  }

  /** Only an exit can end the walk without a failure, and only past every recorded gate. */
  lemma IterateResult(g: Graph, s: State, inp: Input)
    requires s.node in g.nodes
    ensures var t := Iterate(g, s, inp);
      t.result.Some? && !t.result.value.status.Fail? ==>
        && g.nodes[s.node].IsExit() && t.state.node == s.node
        && forall e :: e in t.state.outcomes && IsGate(g, e.0) ==> GateMet(e.1)
  {
    WorkFrame(g, s, inp);
    WorkHaltsFailing(g, s, inp);
    WorkPhase(g, s, inp);
    hide Work;
    hide Route;
    hide IsGate;
    hide GateMet;
    var h := Work(g, s, inp);
    if h.Go? {
      if h.phase.AtExit? {
        ExitResult(g, h.state, inp.prefer);
      } else {
        ElsewhereFails(g, h.state, h.phase, inp.prefer);
      }
    }
  }

  lemma ExitResult(g: Graph, s: State, prefer: NodeId)
    requires s.node in g.nodes
    ensures var t := Route(g, s, AtExit, prefer);
      t.result.Some? && !t.result.value.status.Fail? ==>
        t.state == s && forall e :: e in s.outcomes && IsGate(g, e.0) ==> GateMet(e.1)
  {
    UnsatisfiedExactly(g, s.outcomes);
    hide Unsatisfied;
    hide IsGate;
    hide GateMet;
    hide GateJump;
    hide GateRetryTarget;
  }

  lemma ElsewhereFails(g: Graph, s: State, phase: Phase, prefer: NodeId)
    requires s.node in g.nodes && !phase.AtExit?
    ensures var t := Route(g, s, phase, prefer); t.result.Some? ==> t.result.value.status.Fail?
  {
    hide SkipEdge;
    hide EdgeSelection.SelectEdge;
    hide FailureRetryTarget;
    hide FansOut;
    hide FanIn.FanInNode;
    hide Decimal;
  }

  lemma WorkHaltsFailing(g: Graph, s: State, inp: Input)
    requires s.node in g.nodes
    ensures Work(g, s, inp).Halt? ==> Work(g, s, inp).outcome.status.Fail?
  {
    hide Verdict;
    hide Snapshot;
    hide Assign;
    hide Populate;
    hide FaultText;
    hide AfterUpdates;
  }

  lemma WorkPhase(g: Graph, s: State, inp: Input)
    requires s.node in g.nodes
    ensures Work(g, s, inp).Go? ==> (Work(g, s, inp).phase.AtExit? <==> g.nodes[s.node].IsExit())
  {
    hide Verdict;
    hide Snapshot;
    hide Assign;
    hide Populate;
    hide FaultText;
    hide AfterUpdates;
  }

  lemma {:induction false} WalkResult(g: Graph, s: State, inputs: seq<Input>)
    requires WellFormed(g) && s.node in g.nodes
    ensures var t := Walk(g, s, inputs);
      t.state.node in g.nodes &&
      (t.result.Some? && !t.result.value.status.Fail? ==>
        && g.nodes[t.state.node].IsExit()
        && forall e :: e in t.state.outcomes && IsGate(g, e.0) ==> GateMet(e.1))
    decreases |inputs|
  {
    if inputs != [] {
      IterateResult(g, s, inputs[0]);
      StaysInGraph(g, s, inputs[0]);
      hide Iterate;
      hide IsGate;
      hide GateMet;
      var t := Iterate(g, s, inputs[0]);
      if t.result.None? { WalkResult(g, t.state, inputs[1..]); }
    }
  }

  lemma FreshProvenance(g: Graph, start: NodeId, ctx: Context)
    ensures Provenance(g, [], Fresh(start, ctx))
  {
  }

  // ---------------------------------------------------------------------------
  // Chains of processes: the trace that counts ends at each last save
  // ---------------------------------------------------------------------------

  /** The events of a process up to its last save: what a successor builds on. */
  ghost function UpToSave(events: seq<Event>): seq<Event> {
    if events == [] || events[|events| - 1].Saved? then events else UpToSave(events[..|events| - 1])
  }

  lemma {:induction false} NothingSaved(events: seq<Event>)
    requires Saves(events) == []
    ensures UpToSave(events) == []
  {
    if events != [] {
      var n := |events| - 1;
      SavesConcat(events[..n], [events[n]]);
      assert events == events[..n] + [events[n]];
      assert [events[n]][1..] == [];
      NothingSaved(events[..n]);
    }
  }

  lemma {:induction false} UpToSaveConcat(a: seq<Event>, b: seq<Event>)
    ensures UpToSave(a + b) == if Saves(b) == [] then UpToSave(a) else a + UpToSave(b)
    decreases |b|
  {
    if b == [] {
      assert a + b == a;
    } else {
      var n := |b| - 1;
      assert (a + b)[..|a + b| - 1] == a + b[..n] && (a + b)[|a + b| - 1] == b[n];
      assert b == b[..n] + [b[n]];
      SavesConcat(b[..n], [b[n]]);
      assert Saves([b[n]]) == if b[n].Saved? then [b[n].checkpoint] else [] by { assert [b[n]][1..] == []; }
      if !b[n].Saved? { UpToSaveConcat(a, b[..n]); }
    }
  }

  /** The checkpoint `c` is of a state accounted for by the trace. */
  ghost predicate SavedFrom(g: Graph, trace: seq<Event>, c: Checkpoint) {
    exists s: State :: s.node in g.nodes && Provenance(g, trace, s) && c == Snapshot(g, s)
  }

  /** The last checkpoint a walk writes is of a state accounted for by the trace up to it. */
  lemma {:induction false} LastSaveProvenance(g: Graph, past: seq<Event>, s: State, inputs: seq<Input>)
    requires WellFormed(g) && s.node in g.nodes && Provenance(g, past, s)
    requires Saves(Walk(g, s, inputs).events) != []
    ensures var events := Walk(g, s, inputs).events;
      SavedFrom(g, past + UpToSave(events), Saves(events)[|Saves(events)| - 1])
    decreases |inputs|
  {
    hide Provenance;
    hide Iterate;
    hide UpToSave;
    hide SavedFrom;
    hide Saves;
    assert Saves([]) == [] by { NothingIsSaved(); }
    var inp := inputs[0];
    var t := Iterate(g, s, inp);
    StaysInGraph(g, s, inp);
    TurnSaves(g, past, s, inp);
    IterateProvenance(g, past, s, inp);
    if t.result.None? {
      var rest := Walk(g, t.state, inputs[1..]);
      SavesConcat(t.events, rest.events);
      UpToSaveConcat(t.events, rest.events);
      if Saves(rest.events) != [] {
        LastSaveProvenance(g, past + t.events, t.state, inputs[1..]);
        assert past + t.events + UpToSave(rest.events) == past + (t.events + UpToSave(rest.events));
      }
    }
  }

  lemma NothingIsSaved()
    ensures Saves([]) == []
  {
  }

  /** A turn that saves does so once, at the end of its first half. */
  lemma TurnSaves(g: Graph, past: seq<Event>, s: State, inp: Input)
    requires s.node in g.nodes && Provenance(g, past, s)
    ensures var events := Iterate(g, s, inp).events;
      Saves(events) != [] ==> SavedFrom(g, past + UpToSave(events), Saves(events)[|Saves(events)| - 1])
  {
    hide Work;
    hide Route;
    hide Provenance;
    hide Snapshot;
    hide Verdict;
    WorkFrame(g, s, inp);
    WorkEvents(g, s, inp);
    WorkWrites(g, s, inp);
    WorkProvenance(g, past, s, inp);
    var h := Work(g, s, inp);
    if h.Go? {
      var r := Route(g, h.state, h.phase, inp.prefer);
      RouteWrites(g, h.state, h.phase, inp.prefer);
      SavesConcat(h.events, r.events);
      UpToSaveConcat(h.events, r.events);
    }
  }

  /** What the processes of a chain did that their successors build on. */
  ghost function ChainTrace(g: Graph, s: State, chain: seq<Process>): seq<Event>
    requires WellFormed(g) && s.node in g.nodes && s.steps <= MaxSteps(g)
    decreases |chain|
  {
    if chain == [] then []
    else
      var events := Walk(g, s, chain[0].inputs).events;
      WalkClimbs(g, s, chain[0].inputs);
      NextFacts(g, s, Saves(events));
      UpToSave(events) + ChainTrace(g, Next(g, s, Saves(events)), chain[1..])
  }

  lemma NextProvenance(g: Graph, past: seq<Event>, s: State, inputs: seq<Input>)
    requires WellFormed(g) && s.node in g.nodes && s.steps <= MaxSteps(g) && Provenance(g, past, s)
    ensures forall c :: c in Saves(Walk(g, s, inputs).events) ==> Genuine(g, c)
    ensures var events := Walk(g, s, inputs).events;
      Provenance(g, past + UpToSave(events), Next(g, s, Saves(events)))
  {
    hide Provenance;
    hide Restore;
    hide Snapshot;
    hide Walk;
    WalkClimbs(g, s, inputs);
    var events := Walk(g, s, inputs).events;
    if Saves(events) == [] {
      NothingSaved(events);
      assert past + [] == past;
    } else {
      LastSaveProvenance(g, past, s, inputs);
      var c := Saves(events)[|Saves(events)| - 1];
      var s': State :| s'.node in g.nodes && Provenance(g, past + UpToSave(events), s') && c == Snapshot(g, s');
      RestoreProvenance(g, past + UpToSave(events), s');
    }
  }

  /** Provenance is inherited down a whole chain of killed and resumed processes. */
  lemma {:induction false} ChainProvenance(g: Graph, past: seq<Event>, s: State, chain: seq<Process>)
    requires WellFormed(g) && s.node in g.nodes && s.steps <= MaxSteps(g) && Provenance(g, past, s)
    ensures Provenance(g, past + ChainTrace(g, s, chain), AfterChain(g, s, chain))
    decreases |chain|
  {
    hide Provenance;
    hide Walk;
    hide Next;
    if chain == [] {
      assert past + [] == past;
    } else {
      var inputs := chain[0].inputs;
      var events := Walk(g, s, inputs).events;
      WalkClimbs(g, s, inputs);
      NextFacts(g, s, Saves(events));
      NextProvenance(g, past, s, inputs);
      var next := Next(g, s, Saves(events));
      ChainProvenance(g, past + UpToSave(events), next, chain[1..]);
      assert past + UpToSave(events) + ChainTrace(g, next, chain[1..]) == past + (UpToSave(events) + ChainTrace(g, next, chain[1..]));
    }
  }

  // ---------------------------------------------------------------------------
  // The theorems
  // ---------------------------------------------------------------------------

  /**
   * The latest completion of `id` is an execution that succeeded with a verdict its last attempt asserted
   * itself, and nothing was cleared since.
   */
  ghost predicate GateHeld(g: Graph, trace: seq<Event>, id: NodeId) {
    exists i, v :: ExecutedAt(g, trace, i, id, v) && Latest(trace, i + 1, id) &&
                   v.IsSuccess() && v.isExplicit && Asserted(g.nodes[id], trace[i].inp, v)
  }

  lemma VouchedGateHeld(g: Graph, trace: seq<Event>, id: NodeId, o: Outcome)
    requires Vouched(g, trace, id, o) && GateMet(o)
    ensures GateHeld(g, trace, id)
  {
    hide Verdict;
    hide Asserted;
    var i, v :| ExecutedAt(g, trace, i, id, v) && Latest(trace, i + 1, id) && Durable(v) == Durable(o);
    VerdictLaw(g.nodes[id], trace[i].inp);
    assert v.isExplicit && v.IsSuccess() by {
      assert Durable(v).isExplicit == Durable(o).isExplicit && Durable(v).status == Durable(o).status;
    }
  }

  /**
   * If a walk ends without failure it is at an exit, and for every goal-gate node with a completion since the
   * last clear the latest one is an execution of that very node whose last attempt asserted success itself.
   */
  lemma GatesFailClosed(g: Graph, past: seq<Event>, s: State, inputs: seq<Input>)
    requires WellFormed(g) && s.node in g.nodes && Provenance(g, past, s)
    ensures var t := Walk(g, s, inputs);
      t.result.Some? && !t.result.value.status.Fail? ==>
        && t.state.node in g.nodes && g.nodes[t.state.node].IsExit()
        && forall id :: IsGate(g, id) && CompletedSince(past + t.events, id) ==> GateHeld(g, past + t.events, id)
  {
    WalkResult(g, s, inputs);
    WalkProvenance(g, past, s, inputs);
    hide Walk;
    hide IsGate;
    hide CompletedSince;
    hide Vouched;
    hide GateHeld;
    var t := Walk(g, s, inputs);
    var trace := past + t.events;
    if t.result.Some? && !t.result.value.status.Fail? {
      forall id | IsGate(g, id) && CompletedSince(trace, id) ensures GateHeld(g, trace, id) {
        var i :| 0 <= i < |t.state.outcomes| && t.state.outcomes[i].0 == id;
        var e := t.state.outcomes[i];
        assert e in t.state.outcomes;
        VouchedGateHeld(g, trace, id, e.1);
      }
    }
  }

  /** The same for a pipeline killed and resumed any number of times, started fresh: the execution may lie in an earlier process. */
  lemma GatesFailClosedAcrossKills(g: Graph, start: NodeId, ctx: Context, chain: seq<Process>, inputs: seq<Input>)
    requires WellFormed(g) && start in g.nodes
    ensures var t := Walk(g, AfterChain(g, Fresh(start, ctx), chain), inputs);
      var trace := ChainTrace(g, Fresh(start, ctx), chain) + t.events;
      t.result.Some? && !t.result.value.status.Fail? ==>
        && t.state.node in g.nodes && g.nodes[t.state.node].IsExit()
        && forall id :: IsGate(g, id) && CompletedSince(trace, id) ==> GateHeld(g, trace, id)
  {
    hide Provenance;
    hide Walk;
    hide GateHeld;
    hide IsGate;
    hide CompletedSince;
    FreshProvenance(g, start, ctx);
    ChainProvenance(g, [], Fresh(start, ctx), chain);
    var past := ChainTrace(g, Fresh(start, ctx), chain);
    assert [] + past == past;
    GatesFailClosed(g, past, AfterChain(g, Fresh(start, ctx), chain), inputs);
  }

  /** Every execution recorded in a walk carries the verdict on what that execution met. */
  lemma {:induction false} RecordsAreVerdicts(g: Graph, s: State, inputs: seq<Input>, i: nat)
    requires WellFormed(g) && s.node in g.nodes
    requires var trace := Walk(g, s, inputs).events; i < |trace| && trace[i].Recorded? && trace[i].ran
    ensures var trace := Walk(g, s, inputs).events;
      i > 0 && ExecutedAt(g, trace, i - 1, trace[i].node, trace[i].outcome)
    decreases |inputs|
  {
    hide Work;
    hide Route;
    hide Verdict;
    hide Snapshot;
    var inp := inputs[0];
    var h, t := Work(g, s, inp), Iterate(g, s, inp);
    WorkEvents(g, s, inp);
    WorkFrame(g, s, inp);
    StaysInGraph(g, s, inp);
    if h.Go? { RouteFrame(g, h.state, h.phase, inp.prefer); }
    var trace := Walk(g, s, inputs).events;
    if i < |t.events| {
      assert trace[i] == t.events[i] && trace[0] == t.events[0];
      assert i == 1 && |t.events| >= 3;
      assert ExecutedAt(g, t.events, 0, trace[i].node, trace[i].outcome);
    } else {
      RecordsAreVerdicts(g, t.state, inputs[1..], i - |t.events|);
      assert trace[i - 1] == Walk(g, t.state, inputs[1..]).events[i - 1 - |t.events|];
    }
  }

  /**
   * The artifact contract survives every mix of retries, status files, timeouts, promotion and partial
   * acceptance: every success recorded for a `must_write` node, in any process of a run, was recorded by an
   * execution of that node whose artifact was fresh, readable and not blank at the final check.
   */
  lemma RecordedSuccessDelivered(g: Graph, s: State, inputs: seq<Input>, i: nat)
    requires WellFormed(g) && s.node in g.nodes
    requires var trace := Walk(g, s, inputs).events;
      i < |trace| && trace[i].Recorded? && trace[i].outcome.IsSuccess() &&
      trace[i].node in g.nodes && g.nodes[trace[i].node].mustWrite
    ensures var trace := Walk(g, s, inputs).events;
      i > 0 && trace[i - 1].Ran? && trace[i - 1].node == trace[i].node &&
      Delivered(trace[i - 1].inp.artifact, trace[i - 1].inp.start)
  {
    hide Verdict;
    hide Delivered;
    if !Walk(g, s, inputs).events[i].ran {
      SkipsRecordNoSuccess(g, s, inputs, i);
      assert false;
    }
    RecordsAreVerdicts(g, s, inputs, i);
    var trace := Walk(g, s, inputs).events;
    hide Walk;
    VerdictLaw(g.nodes[trace[i].node], trace[i - 1].inp);
  }

  /** What the engine records without executing is never a success. */
  lemma {:induction false} SkipsRecordNoSuccess(g: Graph, s: State, inputs: seq<Input>, i: nat)
    requires WellFormed(g) && s.node in g.nodes
    requires var trace := Walk(g, s, inputs).events; i < |trace| && trace[i].Recorded? && !trace[i].ran
    ensures !Asserts(Walk(g, s, inputs).events[i].outcome)
    decreases |inputs|
  {
    hide Work;
    hide Route;
    hide Verdict;
    hide Snapshot;
    hide Asserts;
    var inp := inputs[0];
    var h, t := Work(g, s, inp), Iterate(g, s, inp);
    WorkEvents(g, s, inp);
    WorkTable(g, s, inp);
    WorkFrame(g, s, inp);
    StaysInGraph(g, s, inp);
    if h.Go? { RouteFrame(g, h.state, h.phase, inp.prefer); }
    if i >= |t.events| { SkipsRecordNoSuccess(g, t.state, inputs[1..], i - |t.events|); }
  }
}
