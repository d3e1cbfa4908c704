/** Checkpoint files over whole runs: which of them a later process may resume from. */
module RunFiles {
  import opened Prelude
  import opened Outcomes
  import opened Graphs
  import opened Checkpoints
  import opened EngineModel
  import opened Resume
  import opened Gates
  import opened Kills
  import opened Engine
  import opened File = CheckpointFile

  // ---------------------------------------------------------------------------
  // Everything a walk keeps is about nodes of its graph
  // ---------------------------------------------------------------------------

  ghost predicate AboutGraph(g: Graph, s: State) {
    && s.node in g.nodes
    && (forall id :: id in s.completed ==> id in g.nodes)
    && (forall e :: e in s.outcomes ==> e.0 in g.nodes)
    && DistinctKeys(s.outcomes)
  }

  /** How the first half extends the completed list. */
  lemma WorkCompletes(g: Graph, s: State, inp: Input)
    requires s.node in g.nodes
    ensures var t := Work(g, s, inp).state; t.completed == s.completed || t.completed == s.completed + [s.node]
  {
    hide EngineModel.Verdict;
    hide Snapshot;
    hide Assign;
    hide Populate;
    hide FaultText;
    hide AfterUpdates;
    hide FailedRefs;
    hide SkipOutcome;
    hide ShownContext;
  }

  lemma WorkAboutGraph(g: Graph, s: State, inp: Input)
    requires AboutGraph(g, s)
    ensures AboutGraph(g, Work(g, s, inp).state)
  {
    WorkFrame(g, s, inp);
    WorkCompletes(g, s, inp);
    WorkRecords(g, s, inp);
    hide Work;
    hide Assign;
    var t := Work(g, s, inp).state;
    if t.outcomes != s.outcomes {
      var o :| t.outcomes == Assign(s.outcomes, s.node, o);
      AssignFacts(s.outcomes, s.node, o);
    }
  }

  lemma SnapshotBelongs(g: Graph, s: State)
    requires AboutGraph(g, s)
    ensures BelongsTo(Snapshot(g, s), g)
  {
    var c := Snapshot(g, s);
    forall e | e in c.nodeOutcomes ensures e.0 in g.nodes && ValidRecord(e.1) {
      var i :| 0 <= i < |c.nodeOutcomes| && c.nodeOutcomes[i] == e;
      assert s.outcomes[i] in s.outcomes;
      RecordRoundTrip(s.outcomes[i].1);
    }
  }

  lemma RestoreAboutGraph(g: Graph, s: State)
    requires AboutGraph(g, s)
    ensures ValidRecords(Snapshot(g, s).nodeOutcomes) && AboutGraph(g, Restore(g, Snapshot(g, s)))
  {
    OutcomesRoundTrip(s.outcomes);
    var r := Restore(g, Snapshot(g, s));
    forall e | e in r.outcomes ensures e.0 in g.nodes {
      var i :| 0 <= i < |r.outcomes| && r.outcomes[i] == e;
      assert s.outcomes[i] in s.outcomes;
    }
  }

  /** A checkpoint of some state that is about the graph. */
  ghost predicate Sound(g: Graph, c: Checkpoint) {
    exists s: State :: AboutGraph(g, s) && c == Snapshot(g, s)
  }

  ghost predicate AllSound(g: Graph, saves: seq<Checkpoint>) {
    forall c :: c in saves ==> Sound(g, c)
  }

  lemma {:induction false} WalkAboutGraph(g: Graph, s: State, inputs: seq<Input>)
    requires WellFormed(g) && AboutGraph(g, s)
    ensures AllSound(g, Saves(Walk(g, s, inputs).events))
    decreases |inputs|
  {
    hide Work;
    hide Route;
    hide Snapshot;
    hide AboutGraph;
    assert s.node in g.nodes by { AboutNode(g, s); }
    if inputs != [] {
      var inp := inputs[0];
      var h, t := Work(g, s, inp), Iterate(g, s, inp);
      WorkAboutGraph(g, s, inp);
      AboutNode(g, h.state);
      WorkWrites(g, s, inp);
      if h.Go? {
        RouteKeepsOrClears(g, h.state, h.phase, inp.prefer);
        RouteStays(g, h.state, h.phase, inp.prefer);
        RouteWrites(g, h.state, h.phase, inp.prefer);
        SavesConcat(h.events, Route(g, h.state, h.phase, inp.prefer).events);
        KeepsAboutGraph(g, h.state, t.state);
      }
      assert AllSound(g, Saves(t.events));
      if t.result.None? {
        WalkAboutGraph(g, t.state, inputs[1..]);
        SavesConcat(t.events, Walk(g, t.state, inputs[1..]).events);
      }
    }
  }

  lemma AboutNode(g: Graph, s: State)
    requires AboutGraph(g, s)
    ensures s.node in g.nodes
  {
  }

  lemma KeepsAboutGraph(g: Graph, s: State, t: State)
    requires AboutGraph(g, s) && KeepsOrClears(s, t) && t.node in g.nodes
    ensures AboutGraph(g, t)
  {
  }

  lemma SoundFacts(g: Graph, c: Checkpoint)
    requires Sound(g, c)
    ensures BelongsTo(c, g) && ValidRecords(c.nodeOutcomes) && AboutGraph(g, Restore(g, c))
    ensures c.schemaVersion == SCHEMA_VERSION && c.runState == IN_FLIGHT
    ensures c.graph == GraphIdentity(g.fingerprint, g.dotSource)
  {
    var s: State :| AboutGraph(g, s) && c == Snapshot(g, s);
    SnapshotBelongs(g, s);
    RestoreAboutGraph(g, s);
    hide AboutGraph;
    hide Restore;
  }

  // ---------------------------------------------------------------------------
  // The ladder and the engine's own files
  // ---------------------------------------------------------------------------

  /** The graph has a source text, so a checkpoint of it can be recognised. */
  predicate Identified(g: Graph) {
    g.dotSource != "" && g.fingerprint != ""
  }

  /** The ladder accepts the file and the engine reads `c` out of it. */
  ghost predicate Resumable(file: FileState, supplied: Option<string>, g: Graph, c: Checkpoint) {
    Ladder(file, supplied, g).Accepted? && Understood(Ladder(file, supplied, g).loaded) == Some(c)
  }

  lemma SoundIsResumable(g: Graph, c: Checkpoint, supplied: Option<string>)
    requires Sound(g, c) && Identified(g) && (supplied.Some? ==> supplied.value == g.fingerprint)
    ensures Resumable(Parsed(Save(c)), supplied, g, c)
  {
    SoundFacts(g, c);
    LadderExactly(c, supplied, g);
    SaveLoadRoundTrip(c);
    LoadsAs(c);
    hide Ladder;
    hide Understood;
    hide Load;
    hide Save;
    hide BelongsTo;
  }

  /** Over a whole chain of processes every checkpoint the engine writes passes all six rungs and reads back whole. */
  lemma {:induction false} EveryCheckpointIsResumable(g: Graph, s: State, chain: seq<Process>, supplied: Option<string>)
    requires WellFormed(g) && AboutGraph(g, s) && s.steps <= MaxSteps(g) && Identified(g)
    requires supplied.Some? ==> supplied.value == g.fingerprint
    ensures forall c :: c in AllSaves(g, s, chain) ==> Resumable(Parsed(Save(c)), supplied, g, c)
    decreases |chain|
  {
    hide Walk;
    hide Resumable;
    hide AboutGraph;
    AboutNode(g, s);
    if chain != [] {
      WalkAboutGraph(g, s, chain[0].inputs);
      WalkClimbs(g, s, chain[0].inputs);
      var saves := Saves(Walk(g, s, chain[0].inputs).events);
      forall c | c in saves ensures Resumable(Parsed(Save(c)), supplied, g, c) { SoundIsResumable(g, c, supplied); }
      NextFacts(g, s, saves);
      if saves != [] { SoundFacts(g, saves[|saves| - 1]); }
      var n := Next(g, s, saves);
      assert AboutGraph(g, n);
      EveryCheckpointIsResumable(g, n, chain[1..], supplied);
    }
  }

  /**
   * After an entry point has run: if this process saved, the run directory can be resumed exactly when it was
   * killed; if it saved nothing, exactly when what it had found could be.
   */
  lemma ResumableExactly(g: Graph, s: State, inputs: seq<Input>, found: FileState, supplied: Option<string>)
    requires WellFormed(g) && AboutGraph(g, s) && Identified(g)
    requires supplied.Some? ==> supplied.value == g.fingerprint
    ensures var t := Walk(g, s, inputs);
      Ladder(Final(found, t), supplied, g).Accepted? <==>
        if Saves(t.events) == [] then Ladder(found, supplied, g).Accepted? else t.result.None?
  {
    hide AboutGraph;
    hide Ladder;
    hide Save;
    hide BelongsTo;
    hide Restore;
    hide Sound;
    AboutNode(g, s);
    WalkAboutGraph(g, s, inputs);
    hide Walk;
    var saves := Saves(Walk(g, s, inputs).events);
    if saves != [] {
      var last := saves[|saves| - 1];
      assert Sound(g, last);
      SoundIsResumable(g, last, supplied);
      SoundFacts(g, last);
      CompletedIsRefused(last, supplied, g);
    }
  }

  /** Once an entry point that saved has returned, the ladder refuses at the liveness rung, whatever graph is offered. */
  lemma FinishedIsRefused(g: Graph, s: State, inputs: seq<Input>, found: FileState, supplied: Option<string>, other: Graph)
    requires WellFormed(g) && AboutGraph(g, s)
    requires Walk(g, s, inputs).result.Some? && Saves(Walk(g, s, inputs).events) != []
    ensures Ladder(Final(found, Walk(g, s, inputs)), supplied, other) == Refused(Liveness)
  {
    hide Walk;
    hide AboutGraph;
    hide Ladder;
    hide Save;
    hide BelongsTo;
    hide Restore;
    AboutNode(g, s);
    var t := Walk(g, s, inputs);
    WalkAboutGraph(g, s, inputs);
    var saves := Saves(t.events);
    var last := saves[|saves| - 1];
    SoundFacts(g, last);
    CompletedIsRefused(last, supplied, other);
  }

  lemma CompletedIsRefused(c: Checkpoint, supplied: Option<string>, other: Graph)
    requires c.schemaVersion == SCHEMA_VERSION
    ensures Ladder(Parsed(Save(c.(runState := COMPLETED))), supplied, other) == Refused(Liveness)
  {
    LadderExactly(c.(runState := COMPLETED), supplied, other);
    assert COMPLETED[0] != IN_FLIGHT[0];
    hide Ladder;
    hide Save;
  }

  /** A checkpoint is refused under any other graph's source. */
  lemma ForeignGraphIsRefused(g: Graph, c: Checkpoint, other: Graph)
    requires Sound(g, c) && other.fingerprint != g.fingerprint
    ensures Ladder(Parsed(Save(c)), Some(other.fingerprint), other) == Refused(Identity)
  {
    SoundFacts(g, c);
    LadderExactly(c, Some(other.fingerprint), other);
    hide Ladder;
    hide Save;
    hide BelongsTo;
  }

  /** A resumed process cancelled before its first turn returns, saves nothing, and so cannot mark the run completed. */
  lemma CancelledResumeMarksNothing(g: Graph, s: State, inp: Input, found: FileState)
    requires WellFormed(g) && s.node in g.nodes && inp.cancelledBefore && !inp.overBudget && s.steps < MaxSteps(g)
    ensures var t := Walk(g, s, [inp]);
      t.result == Some(CancelledOutcome) && Final(found, t) == found
  {
    hide Route;
    hide Execute;
    assert Work(g, s, inp) == Halt(s.(steps := s.steps + 1), CancelledOutcome, []);
    assert Walk(g, s, [inp]) == Iterate(g, s, inp);
    assert Saves([]) == [];
  }

  /** What the next process reads out of the file, and that it is the state it is to start in. */
  ghost predicate Continues(g: Graph, s: State, saves: seq<Checkpoint>, file: FileState, supplied: Option<string>)
    requires saves != [] && forall c :: c in saves ==> Genuine(g, c)
  {
    var c := saves[|saves| - 1];
    Resumable(file, supplied, g, c) && ValidRecords(c.nodeOutcomes) &&
    Restore(g, c).(ctx := map[] + c.context + map[]) == Next(g, s, saves)
  }

  /** A killed process leaves a file from which the engine restores exactly the state the next process is to start in. */
  lemma KilledRunContinues(g: Graph, s: State, inputs: seq<Input>, found: FileState, supplied: Option<string>)
    requires WellFormed(g) && AboutGraph(g, s) && s.steps <= MaxSteps(g) && Identified(g)
    requires supplied.Some? ==> supplied.value == g.fingerprint
    requires Walk(g, s, inputs).result.None? && Saves(Walk(g, s, inputs).events) != []
    ensures forall c :: c in Saves(Walk(g, s, inputs).events) ==> Genuine(g, c)
    ensures Continues(g, s, Saves(Walk(g, s, inputs).events), Final(found, Walk(g, s, inputs)), supplied)
  {
    hide AboutGraph;
    hide Continues;
    hide Walk;
    hide Sound;
    hide Genuine;
    hide Climbing;
    hide Save;
    AboutNode(g, s);
    WalkAboutGraph(g, s, inputs);
    WalkClimbs(g, s, inputs);
    LastSaveContinues(g, s, Saves(Walk(g, s, inputs).events), supplied);
  }

  lemma LastSaveContinues(g: Graph, s: State, saves: seq<Checkpoint>, supplied: Option<string>)
    requires saves != [] && (forall c :: c in saves ==> Genuine(g, c)) && AllSound(g, saves)
    requires Identified(g) && (supplied.Some? ==> supplied.value == g.fingerprint)
    ensures Continues(g, s, saves, Parsed(Save(saves[|saves| - 1])), supplied)
  {
    hide Resumable;
    hide Save;
    hide Sound;
    hide Genuine;
    hide Restore;
    hide AboutGraph;
    hide BelongsTo;
    var c := saves[|saves| - 1];
    assert Sound(g, c);
    SoundIsResumable(g, c, supplied);
    SoundFacts(g, c);
    assert map[] + c.context + map[] == c.context;
    RestoredContext(g, c);
    assert Next(g, s, saves) == Restore(g, c);
  }

  lemma RestoredContext(g: Graph, c: Checkpoint)
    requires ValidRecords(c.nodeOutcomes)
    ensures Restore(g, c).ctx == c.context
  {
  }
}
