/**
 * When the table of failed outputs that a resume derives from the last outcomes is the one the live
 * engine kept: exactly, completion by completion, and over whole runs.
 */
module Agreement {
  import opened Prelude
  import opened Outcomes
  import opened Graphs
  import opened Checkpoints
  import opened EngineModel
  import opened NodeFiles
  import opened Retry
  import opened Resume
  import opened Gates
  import opened SkipLaw

  // ---------------------------------------------------------------------------
  // The derived table, key by key
  // ---------------------------------------------------------------------------

  /** Entry `i` is a failed or skipped producer of `k`. */
  predicate FailsAt(g: Graph, outcomes: Assoc<NodeId, Outcome>, i: int, k: Key) {
    0 <= i < |outcomes| && Bad(outcomes[i].1) && k in OutputsOf(g, outcomes[i].0)
  }

  ghost predicate OwnedAt(g: Graph, outcomes: Assoc<NodeId, Outcome>, i: int, k: Key) {
    FailsAt(g, outcomes, i, k) && forall j :: FailsAt(g, outcomes, j, k) ==> i <= j
  }

  /** The derived table gives each key to the first failed or skipped producer listed. */
  lemma {:induction false} DerivedExactly(g: Graph, outcomes: Assoc<NodeId, Outcome>, k: Key)
    ensures k in Derived(g, outcomes) <==> exists i :: FailsAt(g, outcomes, i, k)
    ensures k in Derived(g, outcomes) ==>
      exists i :: OwnedAt(g, outcomes, i, k) && Derived(g, outcomes)[k] == outcomes[i].0
  {
    if outcomes != [] {
      var n := |outcomes| - 1;
      var before := outcomes[..n];
      DerivedExactly(g, before, k);
      forall i ensures FailsAt(g, outcomes, i, k) <==>
        FailsAt(g, before, i, k) || (i == n && Bad(outcomes[n].1) && k in OutputsOf(g, outcomes[n].0))
      {
      }
      if k in Derived(g, before) {
        var i :| OwnedAt(g, before, i, k) && Derived(g, before)[k] == before[i].0;
        assert OwnedAt(g, outcomes, i, k);
      } else if FailsAt(g, outcomes, n, k) {
        assert OwnedAt(g, outcomes, n, k);
      }
    }
  }

  // ---------------------------------------------------------------------------
  // One recorded completion
  // ---------------------------------------------------------------------------

  /** `m` is listed after `id` in the outcome table. */
  predicate ListedAfter(outcomes: Assoc<NodeId, Outcome>, id: NodeId, m: NodeId) {
    exists i, j :: 0 <= i < j < |outcomes| && outcomes[i].0 == id && outcomes[j].0 == m
  }

  /**
   * What must hold before `id` completes with `o` for the two tables to agree after it. `marks` says
   * whether the live engine fails the outputs: it does for FAIL and for its own skips, not for a
   * handler's SKIPPED.
   */
  predicate Settled(g: Graph, s: State, id: NodeId, o: Outcome, marks: bool) {
    if Bad(o) then
      forall k :: k in OutputsOf(g, id) ==>
        if k in s.failed then !ListedAfter(s.outcomes, id, s.failed[k]) else marks
    else forall k :: k in s.failed ==> s.failed[k] != id
  }

  predicate SameAt(a: map<Key, NodeId>, b: map<Key, NodeId>, k: Key) {
    (k in a <==> k in b) && (k in a && k in b ==> a[k] == b[k])
  }

  /** The table the live engine has after the completion. */
  function Live(g: Graph, s: State, id: NodeId, marks: bool): map<Key, NodeId> {
    if marks then Populate(g, s.failed, id) else s.failed
  }

  /** Where a completion of `id` is recorded: in its old place, or last. */
  lemma PlaceOf(outcomes: Assoc<NodeId, Outcome>, id: NodeId, o: Outcome) returns (p: nat)
    requires DistinctKeys(outcomes)
    ensures p <= |outcomes| && (p < |outcomes| ==> outcomes[p].0 == id)
    ensures forall j :: 0 <= j < |outcomes| && outcomes[j].0 == id ==> j == p
    ensures Assign(outcomes, id, o) == outcomes[..p] + [(id, o)] + outcomes[if p < |outcomes| then p + 1 else p..]
  {
    if Has(outcomes, id) {
      p := FirstAt(outcomes, id);
      AssignAt(outcomes, id, o, p);
    } else {
      p := |outcomes|;
      AssignFresh(outcomes, id, o);
    }
  }

  predicate SettledAt(g: Graph, s: State, id: NodeId, o: Outcome, marks: bool, k: Key) {
    if Bad(o) then
      k in OutputsOf(g, id) ==> if k in s.failed then !ListedAfter(s.outcomes, id, s.failed[k]) else marks
    else k in s.failed ==> s.failed[k] != id
  }

  lemma ListedAfterPlace(outcomes: Assoc<NodeId, Outcome>, id: NodeId, p: nat, w: nat)
    requires DistinctKeys(outcomes) && p <= |outcomes| && w < |outcomes|
    requires (p < |outcomes| ==> outcomes[p].0 == id) && forall j :: 0 <= j < |outcomes| && outcomes[j].0 == id ==> j == p
    ensures ListedAfter(outcomes, id, outcomes[w].0) <==> p < w
  {
  }

  /** How recording at place `p` moves the entries that fail `k`. */
  lemma FailsMoves(g: Graph, before: Assoc<NodeId, Outcome>, after: Assoc<NodeId, Outcome>, id: NodeId, o: Outcome, p: nat, k: Key)
    requires p <= |before| && after == before[..p] + [(id, o)] + before[if p < |before| then p + 1 else p..]
    ensures forall j :: FailsAt(g, after, j, k) <==>
      (j == p && Bad(o) && k in OutputsOf(g, id)) || (j != p && FailsAt(g, before, j, k))
    ensures after[p].0 == id && forall j :: 0 <= j < |before| && j != p ==> after[j] == before[j]
    ensures |before| <= |after|
  {
    assert forall j :: 0 <= j < |before| && j != p ==> after[j] == before[j];
    assert after[p] == (id, o);
    assert |after| == if p < |before| then |before| else |before| + 1;
    hide Bad;
    forall j ensures FailsAt(g, after, j, k) <==>
      (j == p && Bad(o) && k in OutputsOf(g, id)) || (j != p && FailsAt(g, before, j, k))
    {
    }
  }

  lemma LiveAt(g: Graph, s: State, id: NodeId, marks: bool, k: Key)
    ensures k in Live(g, s, id, marks) <==> k in s.failed || (marks && k in OutputsOf(g, id))
    ensures k in s.failed ==> Live(g, s, id, marks)[k] == s.failed[k]
    ensures k !in s.failed && marks && k in OutputsOf(g, id) ==> Live(g, s, id, marks)[k] == id
  {
  }

  lemma DerivedAtOwner(g: Graph, outcomes: Assoc<NodeId, Outcome>, i: int, k: Key)
    requires OwnedAt(g, outcomes, i, k)
    ensures k in Derived(g, outcomes) && Derived(g, outcomes)[k] == outcomes[i].0
  {
    DerivedExactly(g, outcomes, k);
    hide Derived;
  }

  /** The derived owner of `k` after recording at place `p`. */
  lemma DerivedMoves(g: Graph, before: Assoc<NodeId, Outcome>, after: Assoc<NodeId, Outcome>, id: NodeId, o: Outcome, p: nat, k: Key)
    requires p <= |before| && after == before[..p] + [(id, o)] + before[if p < |before| then p + 1 else p..]
    requires forall j :: 0 <= j < |before| && before[j].0 == id ==> j == p
    ensures var hit := Bad(o) && k in OutputsOf(g, id);
      var d := Derived(g, after);
      && (forall w :: OwnedAt(g, before, w, k) && w != p ==> k in d && d[k] == if hit && p < w then id else before[w].0)
      && (hit && OwnedAt(g, before, p, k) ==> k in d && d[k] == id)
      && (!hit && OwnedAt(g, before, p, k) ==> (k in d ==> d[k] != id))
      && ((forall j :: !FailsAt(g, before, j, k)) ==> (k in d <==> hit) && (k in d ==> d[k] == id))
  {
    FailsMoves(g, before, after, id, o, p, k);
    DerivedExactly(g, after, k);
    hide Derived;
    hide Bad;
    hide OutputsOf;
    var hit := Bad(o) && k in OutputsOf(g, id);
    if w :| OwnedAt(g, before, w, k) {
      var x := if hit && p < w then p else w;
      if w != p || hit {
        assert OwnedAt(g, after, x, k);
        DerivedAtOwner(g, after, x, k);
      } else if k in Derived(g, after) {
        var v :| OwnedAt(g, after, v, k) && Derived(g, after)[k] == after[v].0;
        assert v != p && FailsAt(g, before, v, k);
      }
    } else if hit {
      if j :| FailsAt(g, before, j, k) {
      } else {
        assert OwnedAt(g, after, p, k);
        DerivedAtOwner(g, after, p, k);
      }
    }
  }

  lemma SettledAtKey(g: Graph, s: State, id: NodeId, o: Outcome, marks: bool, k: Key)
    requires DistinctKeys(s.outcomes) && Agrees(g, s) && (marks ==> Bad(o))
    ensures SameAt(Live(g, s, id, marks), Derived(g, Assign(s.outcomes, id, o)), k) <==> SettledAt(g, s, id, o, marks, k)
  {
    var before := s.outcomes;
    var after := Assign(before, id, o);
    var p := PlaceOf(before, id, o);
    DerivedMoves(g, before, after, id, o, p, k);
    DerivedExactly(g, before, k);
    LiveAt(g, s, id, marks, k);
    hide Assign;
    hide Bad;
    hide Live;
    hide OutputsOf;
    hide Derived;
    if k in s.failed {
      var w :| OwnedAt(g, before, w, k) && s.failed[k] == before[w].0;
      ListedAfterPlace(before, id, p, w);
    } else {
      assert forall j :: !FailsAt(g, before, j, k);
    }
    hide ListedAfter;
    hide OwnedAt;
    hide FailsAt;
  }

  /** Recording a completion keeps the live table equal to its derivation exactly when it is settled. */
  lemma RecordingAgreesExactly(g: Graph, s: State, id: NodeId, o: Outcome, marks: bool)
    requires DistinctKeys(s.outcomes) && Agrees(g, s) && (marks ==> Bad(o))
    ensures Live(g, s, id, marks) == Derived(g, Assign(s.outcomes, id, o)) <==> Settled(g, s, id, o, marks)
  {
    var a, b := Live(g, s, id, marks), Derived(g, Assign(s.outcomes, id, o));
    forall k: Key ensures SameAt(a, b, k) <==> SettledAt(g, s, id, o, marks, k) {
      SettledAtKey(g, s, id, o, marks, k);
    }
    hide Live;
    hide Derived;
    hide Assign;
    hide ListedAfter;
    assert a == b <==> forall k: Key :: SameAt(a, b, k) by {
      if forall k: Key :: SameAt(a, b, k) {
        assert forall k :: k in a ==> SameAt(a, b, k);
        assert forall k :: k in b ==> SameAt(a, b, k);
      }
    }
    SettledByKey(g, s, id, o, marks);
  }

  lemma SettledByKey(g: Graph, s: State, id: NodeId, o: Outcome, marks: bool)
    ensures Settled(g, s, id, o, marks) <==> forall k: Key :: SettledAt(g, s, id, o, marks, k)
  {
    hide ListedAfter;
    hide Bad;
    if forall k: Key :: SettledAt(g, s, id, o, marks, k) {
      if Bad(o) {
        forall k | k in OutputsOf(g, id) ensures if k in s.failed then !ListedAfter(s.outcomes, id, s.failed[k]) else marks {
          assert SettledAt(g, s, id, o, marks, k);
        }
      } else {
        forall k | k in s.failed ensures s.failed[k] != id { assert SettledAt(g, s, id, o, marks, k); }
      }
    }
  }

  // ---------------------------------------------------------------------------
  // One turn
  // ---------------------------------------------------------------------------

  /** The completion the first half records, if any, is settled. */
  predicate TurnSettled(g: Graph, s: State, inp: Input)
    requires s.node in g.nodes
  {
    var h := Work(g, s, inp);
    h.Go? ==>
      && (h.phase.SkippedNode? ==> Settled(g, s, s.node, h.phase.outcome, true))
      && (h.phase.CompletedNode? && h.events != [] ==>
            Settled(g, s, s.node, h.phase.outcome, h.phase.outcome.status.Fail?))
  }

  lemma SkipsAreBad(g: Graph, s: State, inp: Input)
    requires s.node in g.nodes
    ensures var h := Work(g, s, inp);
      h.Go? && h.phase.SkippedNode? ==> Bad(h.phase.outcome)
  {
    hide Verdict;
    hide Snapshot;
    hide Assign;
    hide Populate;
    hide FaultText;
    hide AfterUpdates;
    hide FailedRefs;
  }

  lemma WorkAssigns(g: Graph, s: State, inp: Input)
    requires s.node in g.nodes
    ensures var h := Work(g, s, inp);
      h.Go? ==>
        h.state.outcomes ==
          if h.phase.AtExit? || h.events == [] then s.outcomes else Assign(s.outcomes, s.node, h.phase.outcome)
  {
    hide Verdict;
    hide Snapshot;
    hide Assign;
    hide Populate;
    hide FaultText;
    hide AfterUpdates;
    hide FailedRefs;
    hide SkipOutcome;
    hide ShownContext;
  }

  /** A saved table agrees with its derivation exactly when the completion just recorded was settled. */
  lemma WorkAgreesExactly(g: Graph, s: State, inp: Input)
    requires s.node in g.nodes && DistinctKeys(s.outcomes) && Agrees(g, s)
    ensures Work(g, s, inp).Go? ==> (Agrees(g, Work(g, s, inp).state) <==> TurnSettled(g, s, inp))
  {
    hide Work;
    hide Settled;
    hide Derived;
    hide Populate;
    hide Assign;
    hide Blocks;
    hide Snapshot;
    hide Verdict;
    WorkEvents(g, s, inp);
    WorkLaw(g, s, inp);
    WorkAssigns(g, s, inp);
    SkipsAreBad(g, s, inp);
    var h := Work(g, s, inp);
    if h.Go? && !h.phase.AtExit? {
      RecordingAgreesExactly(g, s, s.node, h.phase.outcome, h.phase.SkippedNode? || h.phase.outcome.status.Fail?);
    }
  }

  // ---------------------------------------------------------------------------
  // Whole runs: no node completes twice between clears, no handler returns SKIPPED
  // ---------------------------------------------------------------------------

  /** Between two completions of one node there is a clear. */
  ghost predicate OncePerClear(trace: seq<Event>) {
    forall i, j :: 0 <= i < j < |trace| && trace[i].Recorded? && trace[j].Recorded? && trace[i].node == trace[j].node ==>
      exists m :: i < m < j && trace[m].Cleared?
  }

  predicate NoHandlerSkips(trace: seq<Event>) {
    forall i :: 0 <= i < |trace| && trace[i].Recorded? && trace[i].ran ==> !trace[i].outcome.status.Skipped?
  }

  /** Every entry of the outcome table is in the trace. */
  ghost predicate Known(trace: seq<Event>, s: State) {
    forall e :: e in s.outcomes ==> CompletedSince(trace, e.0)
  }

  lemma KnownGrows(trace: seq<Event>, e: Event, id: NodeId)
    requires CompletedSince(trace, id) && !e.Cleared?
    ensures CompletedSince(trace + [e], id)
  {
    var i :| 0 <= i < |trace| && trace[i].Recorded? && trace[i].node == id &&
             forall m :: i < m < |trace| ==> !trace[m].Cleared?;
    assert (trace + [e])[i] == trace[i];
  }

  lemma SecondCompletion(trace: seq<Event>, more: seq<Event>, e: Event, id: NodeId)
    requires e.Recorded? && e.node == id && CompletedSince(trace, id)
    ensures !OncePerClear(trace + [e] + more)
  {
    var i :| 0 <= i < |trace| && trace[i].Recorded? && trace[i].node == id &&
             forall m :: i < m < |trace| ==> !trace[m].Cleared?;
    var whole := trace + [e] + more;
    assert whole[i] == trace[i] && whole[|trace|] == e;
    forall m | i < m < |trace| ensures !whole[m].Cleared? { assert whole[m] == trace[m]; }
  }

  /** A first completion that is no handler SKIPPED is settled. */
  lemma FirstIsSettled(g: Graph, s: State, id: NodeId, o: Outcome, marks: bool)
    requires DistinctKeys(s.outcomes) && Agrees(g, s) && !Has(s.outcomes, id) && (Bad(o) ==> marks)
    ensures Settled(g, s, id, o, marks)
  {
    hide Derived;
    forall k | k in s.failed ensures s.failed[k] != id {
      DerivedExactly(g, s.outcomes, k);
      var i :| OwnedAt(g, s.outcomes, i, k) && Derived(g, s.outcomes)[k] == s.outcomes[i].0;
    }
  }

  /** The trace of one turn, told apart by its first half. */
  lemma TurnEvents(g: Graph, s: State, inp: Input)
    requires s.node in g.nodes
    ensures var t := Iterate(g, s, inp);
      var h := Work(g, s, inp);
      h.Go? ==>
        var r := Route(g, h.state, h.phase, inp.prefer);
        && t.events == h.events + r.events
        && ((r.events == [] && r.state.outcomes == h.state.outcomes && r.state.failed == h.state.failed) ||
            (r.events == [Cleared] && r.state.outcomes == [] && r.state.failed == map[]))
        && t.state == r.state
  {
    hide Work;
    hide Route;
    var h := Work(g, s, inp);
    WorkFrame(g, s, inp);
    if h.Go? { RouteFrame(g, h.state, h.phase, inp.prefer); }
  }

  lemma BadIsEither()
    ensures forall o :: Bad(o) <==> o.status.Fail? || o.status.Skipped?
  {
  }

  lemma TurnIsSettled(g: Graph, past: seq<Event>, s: State, inp: Input, more: seq<Event>)
    requires s.node in g.nodes && DistinctKeys(s.outcomes) && Agrees(g, s) && Known(past, s) && Work(g, s, inp).Go?
    requires var whole := past + Work(g, s, inp).events + more; OncePerClear(whole) && NoHandlerSkips(whole)
    ensures TurnSettled(g, s, inp)
  {
    hide Work;
    hide Settled;
    hide Snapshot;
    hide Verdict;
    hide Agrees;
    hide DistinctKeys;
    hide CompletedSince;
    hide Bad;
    WorkEvents(g, s, inp);
    SkipsAreBad(g, s, inp);
    BadIsEither();
    var h := Work(g, s, inp);
    if h.events != [] && !h.phase.AtExit? {
      var i := if h.phase.SkippedNode? then 0 else 1;
      var e := h.events[i];
      var whole := past + h.events + more;
      assert whole == past + h.events[..i] + [e] + (h.events[i + 1..] + more);
      assert whole[|past| + i] == e;
      assert past + h.events[..i] == if i == 0 then past else past + [h.events[0]];
      if Has(s.outcomes, s.node) {
        var j :| 0 <= j < |s.outcomes| && s.outcomes[j].0 == s.node;
        assert s.outcomes[j] in s.outcomes;
        if i == 1 { KnownGrows(past, h.events[0], s.node); }
        SecondCompletion(past + h.events[..i], h.events[i + 1..] + more, e, s.node);
        assert false;
      }
      FirstIsSettled(g, s, s.node, h.phase.outcome, h.phase.SkippedNode? || h.phase.outcome.status.Fail?);
    }
  }

  lemma {:induction false} KnownThrough(past: seq<Event>, events: seq<Event>, id: NodeId)
    requires CompletedSince(past, id) && forall e :: e in events ==> !e.Cleared?
    ensures CompletedSince(past + events, id)
    decreases |events|
  {
    if events == [] {
      assert past + events == past;
    } else {
      assert events[0] in events;
      KnownGrows(past, events[0], id);
      KnownThrough(past + [events[0]], events[1..], id);
      assert past + [events[0]] + events[1..] == past + events;
    }
  }

  /** Recording a completion puts it in the trace. */
  lemma KnownAssign(past: seq<Event>, s: State, t: State, events: seq<Event>, i: nat)
    requires DistinctKeys(s.outcomes) && Known(past, s)
    requires i < |events| && events[i].Recorded? && forall e :: e in events ==> !e.Cleared?
    requires t.outcomes == Assign(s.outcomes, events[i].node, events[i].outcome)
    ensures Known(past + events, t) && DistinctKeys(t.outcomes)
  {
    var id := events[i].node;
    AssignFacts(s.outcomes, id, events[i].outcome);
    hide Assign;
    forall e | e in t.outcomes ensures CompletedSince(past + events, e.0) {
      if e in s.outcomes {
        KnownThrough(past, events, e.0);
      } else {
        var whole := past + events;
        assert whole[|past| + i] == events[i];
        forall m | |past| + i < m < |whole| ensures !whole[m].Cleared? { assert whole[m] == events[m - |past|]; }
      }
    }
  }

  lemma KnownKept(past: seq<Event>, s: State, t: State, events: seq<Event>)
    requires Known(past, s) && t.outcomes == s.outcomes && forall e :: e in events ==> !e.Cleared?
    ensures Known(past + events, t)
  {
    forall e | e in t.outcomes ensures CompletedSince(past + events, e.0) { KnownThrough(past, events, e.0); }
  }

  /** What the first half records is in the trace. */
  lemma WorkKnown(g: Graph, past: seq<Event>, s: State, inp: Input)
    requires s.node in g.nodes && DistinctKeys(s.outcomes) && Known(past, s) && Work(g, s, inp).Go?
    ensures Known(past + Work(g, s, inp).events, Work(g, s, inp).state)
    ensures DistinctKeys(Work(g, s, inp).state.outcomes)
  {
    hide Work;
    hide Snapshot;
    hide Assign;
    hide Known;
    hide Verdict;
    hide DistinctKeys;
    WorkEvents(g, s, inp);
    WorkAssigns(g, s, inp);
    var h := Work(g, s, inp);
    if h.phase.AtExit? || h.events == [] {
      KnownKept(past, s, h.state, h.events);
    } else {
      KnownAssign(past, s, h.state, h.events, if h.phase.SkippedNode? then 0 else 1);
    }
  }

  ghost predicate Tracked(g: Graph, past: seq<Event>, s: State) {
    s.node in g.nodes && DistinctKeys(s.outcomes) && Agrees(g, s) && Known(past, s)
  }

  lemma TurnTracked(g: Graph, past: seq<Event>, s: State, inp: Input, more: seq<Event>)
    requires WellFormed(g) && Tracked(g, past, s) && Iterate(g, s, inp).result.None?
    requires var whole := past + Iterate(g, s, inp).events + more; OncePerClear(whole) && NoHandlerSkips(whole)
    ensures Agrees(g, Work(g, s, inp).state)
    ensures Tracked(g, past + Iterate(g, s, inp).events, Iterate(g, s, inp).state)
  {
    hide Work;
    hide Route;
    hide Known;
    hide OncePerClear;
    hide NoHandlerSkips;
    hide TurnSettled;
    hide Derived;
    hide DistinctKeys;
    var h, t := Work(g, s, inp), Iterate(g, s, inp);
    assert h.Go? by { assert t.result.None?; }
    TurnEvents(g, s, inp);
    hide Iterate;
    StaysInGraph(g, s, inp);
    WorkFrame(g, s, inp);
    var tail := Route(g, h.state, h.phase, inp.prefer).events;
    assert past + t.events + more == past + h.events + (tail + more);
    TurnIsSettled(g, past, s, inp, tail + more);
    WorkAgreesExactly(g, s, inp);
    WorkKnown(g, past, s, inp);
    if tail == [] {
      assert past + t.events == past + h.events;
      SameKnown(past + t.events, h.state, t.state);
    } else {
      NothingKnown(past + t.events, t.state);
      EmptyDerived(g);
    }
  }

  lemma SameKnown(past: seq<Event>, s: State, t: State)
    requires Known(past, s) && t.outcomes == s.outcomes
    ensures Known(past, t)
  {
  }

  lemma NothingKnown(past: seq<Event>, s: State)
    requires s.outcomes == []
    ensures Known(past, s) && DistinctKeys(s.outcomes)
  {
  }

  lemma EmptyDerived(g: Graph)
    ensures Derived(g, []) == map[]
  {
  }

  ghost predicate Orderly(trace: seq<Event>) {
    OncePerClear(trace) && NoHandlerSkips(trace)
  }

  lemma OrderlyPrefix(a: seq<Event>, b: seq<Event>)
    requires Orderly(a + b)
    ensures Orderly(a)
  {
    assert forall i :: 0 <= i < |a| ==> (a + b)[i] == a[i];
  }

  /**
   * While no node completes twice between clears and no handler returns SKIPPED, the live table of every
   * reachable state is the one a resume derives.
   */
  lemma {:induction false} WalkAgrees(g: Graph, past: seq<Event>, s: State, inputs: seq<Input>)
    requires WellFormed(g) && Tracked(g, past, s) && Orderly(past + Walk(g, s, inputs).events)
    ensures var t := Walk(g, s, inputs); t.result.None? ==> Tracked(g, past + t.events, t.state)
    decreases |inputs|
  {
    hide Work;
    hide Iterate;
    hide Tracked;
    hide OncePerClear;
    hide NoHandlerSkips;
    assert s.node in g.nodes by { TrackedNode(g, past, s); }
    if inputs == [] {
      assert past + [] == past;
    } else {
      var t := Iterate(g, s, inputs[0]);
      StaysInGraph(g, s, inputs[0]);
      if t.result.None? {
        var rest := Walk(g, t.state, inputs[1..]);
        assert past + Walk(g, s, inputs).events == past + t.events + rest.events;
        TurnTracked(g, past, s, inputs[0], rest.events);
        WalkAgrees(g, past + t.events, t.state, inputs[1..]);
      }
    }
  }

  lemma TrackedNode(g: Graph, past: seq<Event>, s: State)
    requires Tracked(g, past, s)
    ensures s.node in g.nodes && Agrees(g, s)
  {
  }

  /** The segments end in turns that save: an executed node, an exit, or a skip after which both routings move alike. */
  ghost predicate KillsAtSaves(g: Graph, s: State, segments: seq<seq<Input>>)
    requires WellFormed(g) && s.node in g.nodes
    decreases |segments|
  {
    segments == [] ||
    (segments[0] != [] &&
     var n := |segments[0]| - 1;
     var last := segments[0][n];
     WalkInGraph(g, s, segments[0][..n]);
     var t := Walk(g, s, segments[0][..n]);
     t.result.None? &&
     var h := Work(g, t.state, last);
     h.Go? && (h.phase.SkippedNode? ==> SameMove(g, h.state, h.phase.outcome, last.prefer)) &&
     (StaysInGraph(g, t.state, last);
      var next := Iterate(g, t.state, last);
      next.result.None? ==> KillsAtSaves(g, next.state, segments[1..])))
  }

  lemma {:induction false} WalkEventsSplit(g: Graph, s: State, a: seq<Input>, b: seq<Input>)
    requires WellFormed(g) && s.node in g.nodes
    ensures var t := Walk(g, s, a);
      t.state.node in g.nodes &&
      (t.result.None? ==> Walk(g, s, a + b).events == t.events + Walk(g, t.state, b).events)
    decreases |a|
  {
    hide Iterate;
    if a == [] {
      assert a + b == b;
    } else {
      assert (a + b)[1..] == a[1..] + b;
      StaysInGraph(g, s, a[0]);
      var t := Iterate(g, s, a[0]);
      if t.result.None? { WalkEventsSplit(g, t.state, a[1..], b); }
    }
  }

  /** The trace of the uninterrupted walk, split at the first kill. */
  lemma FlatEvents(g: Graph, s: State, segments: seq<seq<Input>>, final: seq<Input>)
    requires WellFormed(g) && s.node in g.nodes && segments != [] && segments[0] != []
    ensures var seg := segments[0];
      var t := Walk(g, s, seg[..|seg| - 1]);
      t.state.node in g.nodes &&
      var next := Iterate(g, t.state, seg[|seg| - 1]);
      next.state.node in g.nodes &&
      (t.result.None? ==>
        Walk(g, s, Flatten(segments) + final).events == t.events + next.events +
          (if next.result.None? then Walk(g, next.state, Flatten(segments[1..]) + final).events else []))
  {
    hide Iterate;
    var seg := segments[0];
    var n := |seg| - 1;
    var tail := Flatten(segments[1..]) + final;
    assert Flatten(segments) + final == seg[..n] + ([seg[n]] + tail);
    WalkEventsSplit(g, s, seg[..n], [seg[n]] + tail);
    var t := Walk(g, s, seg[..n]);
    StaysInGraph(g, t.state, seg[n]);
    assert ([seg[n]] + tail)[1..] == tail;
  }

  /** On an orderly run every such save is a clean place to die. */
  lemma {:induction false} OrderlyKillsAreClean(g: Graph, past: seq<Event>, s: State, segments: seq<seq<Input>>, final: seq<Input>)
    requires WellFormed(g) && s.node in g.nodes && Tracked(g, past, s) && KillsAtSaves(g, s, segments)
    requires Orderly(past + Walk(g, s, Flatten(segments) + final).events)
    ensures CleanKills(g, s, segments)
    decreases |segments|
  {
    hide Work;
    hide Iterate;
    hide Tracked;
    hide Orderly;
    hide Agrees;
    hide SameMove;
    hide Walk;
    if segments != [] {
      var seg := segments[0];
      var n := |seg| - 1;
      WalkInGraph(g, s, seg[..n]);
      var t := Walk(g, s, seg[..n]);
      FlatEvents(g, s, segments, final);
      var next := Iterate(g, t.state, seg[n]);
      var rest := if next.result.None? then Walk(g, next.state, Flatten(segments[1..]) + final).events else [];
      assert past + Walk(g, s, Flatten(segments) + final).events == past + t.events + (next.events + rest);
      OrderlyPrefix(past + t.events, next.events + rest);
      WalkAgrees(g, past, s, seg[..n]);
      assert past + t.events + (next.events + rest) == past + t.events + next.events + rest;
      SaveAgrees(g, past + t.events, t.state, seg[n], rest);
      if next.result.None? {
        OrderlyTurn(g, past + t.events, t.state, seg[n], rest);
        OrderlyKillsAreClean(g, past + t.events + next.events, next.state, segments[1..], final);
      }
    }
  }

  lemma OrderlyTurn(g: Graph, past: seq<Event>, s: State, inp: Input, more: seq<Event>)
    requires WellFormed(g) && s.node in g.nodes && Tracked(g, past, s) && Iterate(g, s, inp).result.None?
    requires Orderly(past + Iterate(g, s, inp).events + more)
    ensures Tracked(g, past + Iterate(g, s, inp).events, Iterate(g, s, inp).state)
  {
    TurnTracked(g, past, s, inp, more);
  }

  lemma SaveAgrees(g: Graph, past: seq<Event>, s: State, inp: Input, more: seq<Event>)
    requires WellFormed(g) && s.node in g.nodes && Tracked(g, past, s) && Work(g, s, inp).Go?
    requires Orderly(past + Iterate(g, s, inp).events + more)
    ensures Agrees(g, Work(g, s, inp).state)
  {
    hide Work;
    hide Known;
    hide OncePerClear;
    hide NoHandlerSkips;
    hide TurnSettled;
    hide Derived;
    hide DistinctKeys;
    TurnEvents(g, s, inp);
    WorkFrame(g, s, inp);
    var h := Work(g, s, inp);
    var tail := Route(g, h.state, h.phase, inp.prefer).events;
    hide Route;
    assert past + Iterate(g, s, inp).events + more == past + h.events + (tail + more);
    TurnIsSettled(g, past, s, inp, tail + more);
    WorkAgreesExactly(g, s, inp);
  }

  /** An orderly run from `s`, cut at the kills of `plain`, with room below the bound for the steps its deaths cost. */
  ghost predicate OrderlyKills(g: Graph, s: State, plain: seq<seq<Input>>, final: seq<Input>, segments: seq<Segment>)
    requires WellFormed(g) && s.node in g.nodes
  {
    && |plain| == |segments| && KillsAtSaves(g, s, plain)
    && Orderly(Walk(g, s, Flatten(plain) + final).events)
    && Walk(g, s, Flatten(plain) + final).state.steps + ExtraSteps(g, s, plain, segments) <= MaxSteps(g)
  }

  /**
   * Crash and resume, in terms of the trace alone. If in the uninterrupted run no node completes twice
   * between clears and no handler returns SKIPPED, then dying at any number of saves of executed nodes,
   * exits and skips that both routings leave alike, any number of times at each, changes nothing but the step count, which grows by one per death
   * after a save, as long as all processes break fan-in ties alike.
   */
  lemma OrderlyCrashResume(g: Graph, start: NodeId, ctx: Context, plain: seq<seq<Input>>, final: seq<Input>,
                           segments: seq<Segment>, last: seq<Input>)
    requires WellFormed(g) && start in g.nodes && OrderlyKills(g, Fresh(start, ctx), plain, final, segments)
    requires Follows(g, plain, segments) && AllAlike(g, final, last)
    ensures var whole, chain :=
        Walk(g, Fresh(start, ctx), Flatten(plain) + final), Interrupted(g, Fresh(start, ctx), segments, last);
      && SameResult(whole.result, chain.result)
      && (whole.result.None? ==> Sim(whole.state, chain.state, ExtraSteps(g, Fresh(start, ctx), plain, segments)))
  {
    hide Walk;
    hide Orderly;
    hide KillsAtSaves;
    hide CleanKills;
    hide Follows;
    hide AllAlike;
    hide Interrupted;
    hide ExtraSteps;
    var s := Fresh(start, ctx);
    assert [] + Walk(g, s, Flatten(plain) + final).events == Walk(g, s, Flatten(plain) + final).events;
    FreshTracked(g, start, ctx);
    OrderlyKillsAreClean(g, [], s, plain, final);
    FreshCrashResume(g, start, ctx, plain, final, segments, last);
  }

  lemma FreshTracked(g: Graph, start: NodeId, ctx: Context)
    requires start in g.nodes
    ensures Tracked(g, [], Fresh(start, ctx))
  {
  }

  /** The chain meets what the uninterrupted run meets, whatever the order of its processes' sets. */
  ghost predicate FollowsButOrder(plain: seq<seq<Input>>, segments: seq<Segment>) {
    |plain| == |segments| && forall k :: 0 <= k < |plain| ==> AllReordered(plain[k], segments[k].inputs)
  }

  ghost predicate AllReordered(xs: seq<Input>, ys: seq<Input>) {
    |xs| == |ys| && forall i :: 0 <= i < |xs| ==> Reordered(xs[i], ys[i])
  }

  /** On a graph whose components leave no fan-in tie, nothing need be known of any process's set order. */
  lemma TieFreeCrashResume(g: Graph, start: NodeId, ctx: Context, plain: seq<seq<Input>>, final: seq<Input>,
                           segments: seq<Segment>, last: seq<Input>)
    requires WellFormed(g) && start in g.nodes && OrderlyKills(g, Fresh(start, ctx), plain, final, segments)
    requires UniqueFanIns(g) && FollowsButOrder(plain, segments) && AllReordered(final, last)
    ensures var whole, chain :=
        Walk(g, Fresh(start, ctx), Flatten(plain) + final), Interrupted(g, Fresh(start, ctx), segments, last);
      && SameResult(whole.result, chain.result)
      && (whole.result.None? ==> Sim(whole.state, chain.state, ExtraSteps(g, Fresh(start, ctx), plain, segments)))
  {
    hide OrderlyKills;
    OrderIsInertExactly(g);
    hide SamePick;
    AlikeWithoutTies(g, final, last);
    forall k | 0 <= k < |plain| ensures AllAlike(g, plain[k], segments[k].inputs) {
      AlikeWithoutTies(g, plain[k], segments[k].inputs);
    }
    assert Follows(g, plain, segments);
    OrderlyCrashResume(g, start, ctx, plain, final, segments, last);
    hide Walk;
    hide Interrupted;
    hide Sim;
  }

  lemma AlikeWithoutTies(g: Graph, xs: seq<Input>, ys: seq<Input>)
    requires AllReordered(xs, ys) && forall p, q :: SamePick(g, p, q)
    ensures AllAlike(g, xs, ys)
  {
  }

  // ---------------------------------------------------------------------------
  // Skips in resumed processes
  // ---------------------------------------------------------------------------

  /** Node `id` refers to an output of a node that failed since the last clear, or that the checkpoint records as failed or skipped while nothing was cleared. */
  ghost predicate DependsSince(g: Graph, outcomes: Assoc<NodeId, Outcome>, trace: seq<Event>, j: int, id: NodeId) {
    exists k :: k in RefsOf(g, id) &&
                ((exists i :: FailsKey(g, trace, i, j, k)) || ((exists i :: FailsAt(g, outcomes, i, k)) && Uncleared(trace, j)))
  }

  /** Skip propagation in a resumed process, in terms of what its checkpoint records and what it did itself. */
  lemma ResumedSkipsExactly(g: Graph, c: Checkpoint, inputs: seq<Input>, j: int)
    requires WellFormed(g) && c.currentNode in g.nodes && ValidRecords(c.nodeOutcomes)
    requires 0 <= j < |Walk(g, Restore(g, c), inputs).events|
    ensures var trace := Walk(g, Restore(g, c), inputs).events;
      var outcomes := RestoreOutcomes(c.nodeOutcomes, c.nodeRetries);
      && (trace[j].Ran? ==> !DependsSince(g, outcomes, trace, j, trace[j].node))
      && (trace[j].Recorded? && !trace[j].ran ==> DependsSince(g, outcomes, trace, j, trace[j].node))
  {
    var outcomes := RestoreOutcomes(c.nodeOutcomes, c.nodeRetries);
    SkipsPropagateFrom(g, Restore(g, c), inputs, j);
    hide Walk;
    hide FailsKey;
    hide Uncleared;
    forall k ensures k in Restore(g, c).failed <==> exists i :: FailsAt(g, outcomes, i, k) {
      DerivedExactly(g, outcomes, k);
    }
    hide FailsAt;
    hide Restore;
    hide Derived;
  }

  // ---------------------------------------------------------------------------
  // The agreement is not unconditional
  // ---------------------------------------------------------------------------

  /** One node that loops to itself and is contracted to produce `k`. */
  const LoopGraph: Graph :=
    Graph(map["a" := Node("a", "box", "", false, false, false, false, 0, None, None, false)],
          [Edge("a", "a", "", "", 0, false)], None, None, map["a" := {"k"}], map[], "digraph", "f")

  const TimesOut := Input(false, false, 0, NodeTimeout, false, Absent, "")

  const Succeeds := Input(false, false, 0,
    RanLadder(LadderWorld(0, (i: nat) => Attempt(0, Returned(Synthetic(Success, None, None)), NoFile, Absent), Absent)),
    false, Absent, "")

  lemma LoopTurn(s: State, inp: Input, o: Outcome)
    requires s.node == "a" && s.pending.None? && s.steps < 50
    requires inp == TimesOut || inp == Succeeds
    requires Verdict(LoopGraph.nodes["a"], inp) == Some(o) && o.preferredLabel.None? && o.suggestedNextIds.None?
    ensures var t := Iterate(LoopGraph, s, inp);
      && t.result.None? && t.state.node == "a" && t.state.pending.None? && t.state.steps == s.steps + 1
      && t.state.outcomes == Assign(s.outcomes, "a", o)
      && t.state.failed == if o.status.Fail? then Populate(LoopGraph, s.failed, "a") else s.failed
  {
    hide Verdict;
    hide Route;
    hide Assign;
    hide Populate;
    var g := LoopGraph;
    LoopWork(s, inp, o);
    LoopRoute(Work(g, s, inp).state, o, inp.prefer);
    hide Work;
  }

  lemma LoopWork(s: State, inp: Input, o: Outcome)
    requires s.node == "a" && s.pending.None? && s.steps < 50
    requires inp == TimesOut || inp == Succeeds
    requires Verdict(LoopGraph.nodes["a"], inp) == Some(o)
    ensures var h := Work(LoopGraph, s, inp);
      && h.Go? && h.phase == CompletedNode(o) && h.state.node == "a" && h.state.pending.None?
      && h.state.steps == s.steps + 1 && h.state.outcomes == Assign(s.outcomes, "a", o)
      && h.state.failed == if o.status.Fail? then Populate(LoopGraph, s.failed, "a") else s.failed
  {
    hide Verdict;
    hide Snapshot;
    hide Assign;
    hide Populate;
    hide AfterUpdates;
    hide ShownContext;
    var g := LoopGraph;
    assert !g.nodes["a"].IsExit() by { assert |Lower("a")| == 1; }
    assert FailedRefs(g, s.(steps := s.steps + 1)) == {};
    hide FailedRefs;
  }

  lemma LoopRoute(s: State, o: Outcome, prefer: NodeId)
    requires s.node == "a" && o.preferredLabel.None? && o.suggestedNextIds.None?
    ensures Route(LoopGraph, s, CompletedNode(o), prefer) == Turn(s, None, [])
  {
    var g := LoopGraph;
    assert g.edges[0] in g.edges && g.edges[0].source == "a";
    hide EdgeSelection.SelectEdge;
    EdgeSelection.NoEdgeExactly(g, "a", o, s.ctx);
    EdgeSelection.SelectedEdgeIsUsable(g, "a", o, s.ctx);
    hide EdgeSelection.Judge;
    assert !FansOut(g, "a");
  }

  const TimedOutOutcome := Synthetic(Fail, Some(NodeTimedOut("a")), Some(Plain("timeout")))
  const PassedOutcome := Synthetic(Success, None, None).(attemptCount := Some(1))

  lemma LoopVerdicts()
    ensures Verdict(LoopGraph.nodes["a"], TimesOut) == Some(TimedOutOutcome)
    ensures Verdict(LoopGraph.nodes["a"], Succeeds) == Some(PassedOutcome)
  {
  }

  /** A node that fails and, on a second visit, succeeds: the live table still holds its key, the derived one does not. */
  lemma RevisitDisagrees()
    ensures WellFormed(LoopGraph)
    ensures var t := Walk(LoopGraph, Fresh("a", map[]), [TimesOut, Succeeds]);
      t.result.None? && "k" in t.state.failed && "k" !in Derived(LoopGraph, t.state.outcomes)
  {
    hide Iterate;
    hide Verdict;
    var g := LoopGraph;
    var s0 := Fresh("a", map[]);
    LoopVerdicts();
    LoopTurn(s0, TimesOut, TimedOutOutcome);
    var s1 := Iterate(g, s0, TimesOut).state;
    LoopTurn(s1, Succeeds, PassedOutcome);
    var s2 := Iterate(g, s1, Succeeds).state;
    assert [TimesOut, Succeeds][1..] == [Succeeds] && [Succeeds][1..] == [];
    assert s1.outcomes == [("a", TimedOutOutcome)];
    assert s2.outcomes == [("a", PassedOutcome)];
    assert Derived(g, s2.outcomes[..0]) == map[];
    assert Walk(g, s2, []) == Turn(s2, None, []);
    assert [Succeeds] != [] && [TimesOut, Succeeds] != [] && [TimesOut, Succeeds][0] == TimesOut;
    var t1 := Walk(g, s1, [Succeeds]);
    assert t1.state == s2 && t1.result.None?;
    assert Walk(g, s0, [TimesOut, Succeeds]).state == s2;
    assert "k" in OutputsOf(g, "a") && "k" in s1.failed && "k" in s2.failed;
    assert Derived(g, s2.outcomes) == map[];
  }

  /** The crash theorem speaks of real kills: on the same graph, dying at the first save is one. */
  lemma OneKill()
    ensures WellFormed(LoopGraph)
    ensures KillsAtSaves(LoopGraph, Fresh("a", map[]), [[TimesOut]])
    ensures var whole := Walk(LoopGraph, Fresh("a", map[]), Flatten([[TimesOut]]) + []);
      whole.result.None? && Orderly(whole.events) && whole.state.steps + 1 <= MaxSteps(LoopGraph)
    ensures OrderlyKills(LoopGraph, Fresh("a", map[]), [[TimesOut]], [], [Segment([TimesOut], 0, "")])
    ensures UniqueFanIns(LoopGraph)
  {
    hide Iterate;
    hide Work;
    hide Orderly;
    var g := LoopGraph;
    var s0 := Fresh("a", map[]);
    FirstTurn(s0);
    var s1 := Iterate(g, s0, TimesOut).state;
    assert Flatten([[TimesOut]]) + [] == [TimesOut] by { assert Flatten([[TimesOut]][1..]) == []; }
    assert [TimesOut][1..] == [] && [[TimesOut]][1..] == [] && [TimesOut][..0] == [];
    assert Walk(g, s1, []) == Turn(s1, None, []) && Walk(g, s0, []) == Turn(s0, None, []);
    assert KillsAtSaves(g, s1, []);
    assert |g.nodes| == 1;
    var segments := [Segment([TimesOut], 0, "")];
    assert ExtraSteps(g, s1, [], []) == 0 && segments[1..] == [];
    assert ExtraSteps(g, s0, [[TimesOut]], segments) == 1;
    assert !FansOut(g, "a");
  }

  /** The first turn on that graph, as far as the trace goes. */
  lemma FirstTurn(s0: State)
    requires s0 == Fresh("a", map[])
    ensures var g := LoopGraph;
      var t := Iterate(g, s0, TimesOut);
      var h := Work(g, s0, TimesOut);
      && h.Go? && h.phase.CompletedNode? && t.result.None? && t.state.node == "a" && t.state.steps == 1
      && Orderly(t.events) && Orderly(t.events + [])
  {
    hide Verdict;
    hide Snapshot;
    hide Iterate;
    hide Work;
    hide Route;
    var g := LoopGraph;
    LoopVerdicts();
    LoopTurn(s0, TimesOut, TimedOutOutcome);
    LoopWork(s0, TimesOut, TimedOutOutcome);
    WorkEvents(g, s0, TimesOut);
    TurnEvents(g, s0, TimesOut);
    LoopRoute(Work(g, s0, TimesOut).state, TimedOutOutcome, "");
    var t := Iterate(g, s0, TimesOut);
    OrderlyTurnTrace(t.events);
    assert t.events + [] == t.events;
  }

  lemma OrderlyTurnTrace(trace: seq<Event>)
    requires trace == [] || (|trace| == 3 && !trace[0].Recorded? && !trace[2].Recorded? &&
                             (trace[1].Recorded? ==> !trace[1].outcome.status.Skipped?))
    ensures Orderly(trace)
  {
  }
}
