/**
 * The finalization protocol of the amplifier-agent worker (`execute`'s `finally` block): caller,
 * finalizer, consumer and delivery tasks interleaved in any order, under repeated cancellation.
 */
module Finalizer {
  import opened Prelude

  datatype Status = Incomplete | Cancelled | Success

  /** The exception on record when finalization starts or ends: none, the body's error, or a cancellation. */
  datatype Primary = NoError | BodyError | CancelledError

  /** How far the body got with its handles before it ended. */
  datatype Made = Nothing | AgentMade | SessionMade | TurnMade | ConsumerMade

  predicate HasAgent(m: Made) { !m.Nothing? }
  predicate HasSession(m: Made) { HasAgent(m) && !m.AgentMade? }
  predicate HasTurn(m: Made) { m.TurnMade? || m.ConsumerMade? }

  /** How the body ended: with a reply, with an error (the terminal may have said cancelled), or cancelled. */
  datatype BodyEnd = Replied | Failed(terminalCancelled: bool) | Interrupted

  datatype Operation = TurnCancel | EventDrain | SessionClose | AgentClose | Delivery

  datatype After = ToCloses | ToRedelivery

  /** Where the finalizer task stands; each of these but the last waits for something. */
  datatype Pc =
    | Begin
    | CancellingTurn(next: After)
    | Draining(next: After)
    | ClosingSession
    | ClosingAgent
    | Scheduled    // the delivery task exists but has not run yet
    | HandedBack   // it returned without dispatching: drain first
    | Emitting     // it is inside the completion hooks
    | Done

  datatype Entry =
    | TurnCancelCalled
    | DrainEnded
    | SessionCloseCalled
    | AgentCloseCalled
    | DeliveryTried
    | Dispatched(status: Status, pendingSeen: bool, faults: nat)

  datatype Result = ReturnsReply | RaisesCleanup | RaisesCancelled | RaisesBody

  datatype State = State(
    body: BodyEnd,
    made: Made,
    consumerDone: bool,
    consumerCancelled: bool,
    requested: nat,          // cancellations requested beyond those at entry
    throwPending: bool,      // one of them still has to be raised in the caller
    status: Status,
    primary: Primary,
    drained: bool,
    errors: seq<Operation>,  // cleanup failures, in order
    committed: Option<Status>,
    pc: Pc,
    left: Option<Result>,    // how the caller left, once it has
    log: seq<Entry>)

  /** What can happen next, by one task or from outside. */
  datatype Action =
    | CancelRequested
    | CallerCatches
    | CallerLeaves
    | ConsumerSettles
    | FinalizerBegins
    | OperationEnds(fault: bool)  // by itself, by its own cancellation, or by its time limit
    | DeliveryRuns
    | DeliveryNeverRan            // its time limit expired before its first step
    | EmitEnds(fault: bool)
    | FinalizerResumes

  predicate ByFinalizer(a: Action) {
    !a.CancelRequested? && !a.CallerCatches? && !a.CallerLeaves? && !a.ConsumerSettles?
  }

  // ---------------------------------------------------------------------------
  // The state when the `finally` block is entered
  // ---------------------------------------------------------------------------

  ghost predicate Init(s: State) {
    && s.pc == Begin && !s.drained && s.errors == [] && s.committed.None? && s.left.None? && s.log == []
    && !s.consumerCancelled && (s.throwPending ==> s.requested > 0) && (s.consumerDone ==> s.made.ConsumerMade?)
    && match s.body
       case Replied => s.made.ConsumerMade? && s.consumerDone && s.status == Success && s.primary == NoError
       case Failed(terminal) =>
         s.primary == BodyError && s.status == (if terminal then Cancelled else Incomplete) &&
         (terminal ==> s.made.ConsumerMade? && s.consumerDone)
       case Interrupted => s.status == Cancelled && s.primary == CancelledError
  }

  // ---------------------------------------------------------------------------
  // Steps
  // ---------------------------------------------------------------------------

  /** Handles, outcome of the body and exception on record are no business of the finalizer's moves. */
  predicate SameCourse(s: State, t: State) {
    t.body == s.body && t.made == s.made && t.primary == s.primary
  }

  function Log(s: State, e: Entry): (t: State)
    ensures SameCourse(s, t)
  {
    s.(log := s.log + [e])
  }

  function Fault(s: State, fault: bool, op: Operation): (t: State)
    ensures SameCourse(s, t)
  {
    if fault then s.(errors := s.errors + [op]) else s
  }

  /** `_bounded(publish_completion())` is called: the delivery task is created. */
  function Deliver(s: State): (t: State)
    ensures SameCourse(s, t)
  {
    Log(s, DeliveryTried).(pc := Scheduled)
  }

  /** Drop an unfinished consumer, degrade the status after cleanup errors, and deliver. */
  function AfterCloses(s: State): (t: State)
    ensures SameCourse(s, t)
  {
    var dropped := s.(consumerCancelled := s.made.ConsumerMade? && !s.consumerDone);
    var judged := if s.errors != [] && s.primary == NoError && s.status != Cancelled then dropped.(status := Incomplete) else dropped;
    Deliver(judged)
  }

  function CloseAgent(s: State): (t: State)
    ensures SameCourse(s, t)
  {
    if HasAgent(s.made) then Log(s, AgentCloseCalled).(pc := ClosingAgent) else AfterCloses(s)
  }

  function CloseSession(s: State): (t: State)
    ensures SameCourse(s, t)
  {
    if HasSession(s.made) then Log(s, SessionCloseCalled).(pc := ClosingSession) else CloseAgent(s)
  }

  function Continue(s: State, next: After): (t: State)
    ensures SameCourse(s, t)
  {
    if next.ToCloses? then CloseSession(s) else Deliver(s)
  }

  /** `cancel_and_drain`: once only, and only with a turn. */
  function CancelAndDrain(s: State, next: After): (t: State)
    ensures SameCourse(s, t)
  {
    if !s.drained && HasTurn(s.made) then
      Log(s.(drained := true), TurnCancelCalled).(pc := CancellingTurn(next))
    else Continue(s, next)
  }

  /** A cancellation requested of the caller counts even before it is raised there. */
  function Observe(s: State): State {
    if s.requested > 0 then s.(status := Cancelled, primary := if s.primary == NoError then CancelledError else s.primary)
    else s
  }

  /** The delivery task's only run up to its first suspension. */
  function Publish(s: State): State {
    var o := Observe(s);
    if o.status == Cancelled && HasTurn(o.made) && !o.drained then o.(pc := HandedBack)
    else Log(o, Dispatched(o.status, o.requested > 0, |o.errors|)).(committed := Some(o.status), pc := Emitting)
  }

  /** What `execute` does when the finalizer is done. */
  function Outcome(s: State): Result {
    if s.errors != [] && s.primary == NoError then RaisesCleanup
    else if s.primary == CancelledError then RaisesCancelled
    else if s.body.Replied? then ReturnsReply
    else RaisesBody
  }

  /** One step of some task, where it is possible. */
  function Step(s: State, a: Action): Option<State> {
    match a
    case CancelRequested => if s.left.None? then Some(s.(requested := s.requested + 1, throwPending := true)) else None
    case CallerCatches =>
      if s.throwPending && s.left.None? then
        Some(s.(throwPending := false,
                status := if s.committed.None? then Cancelled else s.status,
                primary := if s.primary == NoError then CancelledError else s.primary))
      else None
    case CallerLeaves =>
      if s.pc == Done && !s.throwPending && s.left.None? then Some(s.(left := Some(Outcome(s)))) else None
    case ConsumerSettles =>
      if s.made.ConsumerMade? && !s.consumerDone then Some(s.(consumerDone := true)) else None
    case FinalizerBegins =>
      if s.pc != Begin then None
      else Some(if s.status == Cancelled then CancelAndDrain(s, ToCloses) else CloseSession(s))
    case OperationEnds(fault) =>
      (match s.pc
       case CancellingTurn(next) =>
         var t := Fault(s, fault, TurnCancel);
         Some(if t.made.ConsumerMade? then t.(pc := Draining(next)) else Continue(t, next))
       case Draining(next) =>
         if fault || s.consumerDone then Some(Continue(Log(Fault(s, fault, EventDrain), DrainEnded), next)) else None
       case ClosingSession => Some(CloseAgent(Fault(s, fault, SessionClose)))
       case ClosingAgent => Some(AfterCloses(Fault(s, fault, AgentClose)))
       case _ => None)
    case DeliveryRuns => if s.pc == Scheduled then Some(Publish(s)) else None
    case DeliveryNeverRan => if s.pc == Scheduled then Some(Fault(s, true, Delivery).(pc := Done)) else None
    case EmitEnds(fault) => if s.pc == Emitting then Some(Fault(s, fault, Delivery).(pc := Done)) else None
    case FinalizerResumes => if s.pc == HandedBack then Some(CancelAndDrain(s, ToRedelivery)) else None
  }

  /** A run: any interleaving whatsoever. */
  function Run(s: State, actions: seq<Action>): Option<State> {
    if actions == [] then Some(s)
    else
      var before := Run(s, actions[..|actions| - 1]);
      if before.Some? then Step(before.value, actions[|actions| - 1]) else None
  }

  // ---------------------------------------------------------------------------
  // Counting log entries
  // ---------------------------------------------------------------------------

  function Weight(e: Entry, kind: Entry): nat {
    if e == kind || (e.Dispatched? && kind.Dispatched?) then 1 else 0
  }

  function Count(log: seq<Entry>, kind: Entry): nat {
    if log == [] then 0 else Count(log[..|log| - 1], kind) + Weight(log[|log| - 1], kind)
  }

  lemma CountPush(log: seq<Entry>, e: Entry, kind: Entry)
    ensures Count(log + [e], kind) == Count(log, kind) + Weight(e, kind)
  {
    assert (log + [e])[..|log + [e]| - 1] == log;
  }

  const AnyDispatch := Dispatched(Incomplete, false, 0)

  // ---------------------------------------------------------------------------
  // The invariant
  // ---------------------------------------------------------------------------

  predicate ClosesStarted(pc: Pc) {
    !pc.Begin? && pc != CancellingTurn(ToCloses) && pc != Draining(ToCloses)
  }

  predicate ClosesOver(pc: Pc) {
    ClosesStarted(pc) && !pc.ClosingSession? && !pc.ClosingAgent?
  }

  predicate Redelivering(pc: Pc) {
    pc == CancellingTurn(ToRedelivery) || pc == Draining(ToRedelivery)
  }

  predicate InDrain(pc: Pc) {
    pc.CancellingTurn? || pc.Draining?
  }

  ghost predicate Counters(s: State) {
    && Count(s.log, TurnCancelCalled) == (if s.drained then 1 else 0)
    && Count(s.log, SessionCloseCalled) == (if ClosesStarted(s.pc) && HasSession(s.made) then 1 else 0)
    && Count(s.log, AgentCloseCalled) ==
         (if ClosesStarted(s.pc) && !s.pc.ClosingSession? && HasAgent(s.made) then 1 else 0)
    && Count(s.log, AnyDispatch) == (if s.committed.Some? then 1 else 0)
    && var tried := Count(s.log, DeliveryTried);
       && (!ClosesOver(s.pc) ==> tried == 0)
       && (ClosesOver(s.pc) ==> 1 <= tried <= 2)
       && (tried == 2 ==> s.drained)
       && (s.pc.HandedBack? || Redelivering(s.pc) ==> tried == 1)
  }

  ghost predicate Shape(s: State) {
    && (s.throwPending ==> s.requested > 0)
    && (s.drained ==> HasTurn(s.made))
    && (InDrain(s.pc) ==> s.drained)
    && (s.pc.HandedBack? ==> !s.drained && HasTurn(s.made) && s.status == Cancelled)
    && (Redelivering(s.pc) ==> s.status == Cancelled)
    && (s.pc.Draining? ==> s.made.ConsumerMade?)
    && (s.drained && !InDrain(s.pc) && s.made.ConsumerMade? ==> DrainEnded in s.log)
    && (s.drained ==> TurnCancelCalled in s.log)
  }

  /** What the statuses mean. */
  ghost predicate Meaning(s: State) {
    && (s.committed.Some? ==> s.pc.Emitting? || s.pc.Done?)
    && (s.committed.None? ==> !s.pc.Emitting? && (s.pc.Done? ==> s.errors != []))
    && (s.status == Success ==> s.body.Replied?)
    && (s.status == Success && s.committed.None? ==> s.primary == NoError)
    && (s.primary == NoError ==> s.body.Replied? && (s.committed.None? ==> s.status != Cancelled))
    && (s.primary == NoError && s.status == Incomplete ==> s.errors != [])
    && (s.committed.Some? ==> s.committed == Some(s.status))
    && (s.status == Success && ClosesOver(s.pc) && s.committed.None? && !s.pc.Done? ==> s.errors == [])
    && (s.primary == BodyError <==> s.body.Failed?)
    && (s.committed == Some(Cancelled) ==> s.primary != NoError)
    && (s.left.Some? ==> s.pc.Done? && s.left == Some(Outcome(s)))
  }

  /** Every dispatch on the log was made in order. */
  ghost predicate InOrder(s: State) {
    forall i :: 0 <= i < |s.log| && s.log[i].Dispatched? ==>
      && s.committed == Some(s.log[i].status)
      && (s.log[i].status == Cancelled && HasTurn(s.made) ==>
            TurnCancelCalled in s.log[..i] && (s.made.ConsumerMade? ==> DrainEnded in s.log[..i]))
      && (s.log[i].status == Success ==> s.body.Replied? && !s.log[i].pendingSeen && s.log[i].faults == 0)
      && ((s.made.Nothing? || AgentCloseCalled in s.log[..i]) && (HasSession(s.made) ==> SessionCloseCalled in s.log[..i]))
  }

  ghost predicate Inv(s: State) {
    Counters(s) && Shape(s) && Meaning(s) && InOrder(s)
  }

  lemma InitInv(s: State)
    requires Init(s)
    ensures Inv(s)
  {
  }

  // ---------------------------------------------------------------------------
  // Every step keeps it
  // ---------------------------------------------------------------------------

  /** Counts after one more entry. */
  lemma Pushed(s: State, e: Entry)
    ensures var t := Log(s, e);
      && Count(t.log, TurnCancelCalled) == Count(s.log, TurnCancelCalled) + Weight(e, TurnCancelCalled)
      && Count(t.log, SessionCloseCalled) == Count(s.log, SessionCloseCalled) + Weight(e, SessionCloseCalled)
      && Count(t.log, AgentCloseCalled) == Count(s.log, AgentCloseCalled) + Weight(e, AgentCloseCalled)
      && Count(t.log, DeliveryTried) == Count(s.log, DeliveryTried) + Weight(e, DeliveryTried)
      && Count(t.log, AnyDispatch) == Count(s.log, AnyDispatch) + Weight(e, AnyDispatch)
  {
    CountPush(s.log, e, TurnCancelCalled);
    CountPush(s.log, e, SessionCloseCalled);
    CountPush(s.log, e, AgentCloseCalled);
    CountPush(s.log, e, DeliveryTried);
    CountPush(s.log, e, AnyDispatch);
  }

  /** Entries that are no dispatches leave the order law alone. */
  lemma OrderKept(s: State, t: State, more: seq<Entry>)
    requires InOrder(s) && t.body == s.body && t.made == s.made && t.committed == s.committed
    requires t.log == s.log + more && forall i :: 0 <= i < |more| ==> !more[i].Dispatched?
    ensures InOrder(t)
  {
    assert forall i :: |s.log| <= i < |t.log| ==> t.log[i] == more[i - |s.log|];
    forall i | 0 <= i < |t.log| && t.log[i].Dispatched?
      ensures i < |s.log| && t.log[i] == s.log[i] && t.log[..i] == s.log[..i]
    {
    }
  }

  /** What holds wherever nothing is committed yet, whatever the program counter says. */
  ghost predicate Pending(s: State) {
    && s.committed.None? && s.left.None? && InOrder(s)
    && (s.throwPending ==> s.requested > 0)
    && (s.status == Success ==> s.body.Replied? && s.primary == NoError)
    && (s.primary == NoError ==> s.body.Replied? && s.status != Cancelled)
    && (s.primary == NoError && s.status == Incomplete ==> s.errors != [])
    && (s.primary == BodyError <==> s.body.Failed?)
    && (s.drained ==> HasTurn(s.made) && TurnCancelCalled in s.log)
    && Count(s.log, TurnCancelCalled) == (if s.drained then 1 else 0)
    && Count(s.log, AnyDispatch) == 0
  }

  ghost predicate Settled(s: State) {
    s.drained && s.made.ConsumerMade? ==> DrainEnded in s.log
  }

  ghost predicate Tally(s: State, session: bool, agent: bool, tried: nat) {
    && Count(s.log, SessionCloseCalled) == (if session && HasSession(s.made) then 1 else 0)
    && Count(s.log, AgentCloseCalled) == (if agent && HasAgent(s.made) then 1 else 0)
    && Count(s.log, DeliveryTried) == tried
  }

  lemma PendingLog(s: State, e: Entry)
    requires Pending(s) && !e.Dispatched? && e != TurnCancelCalled
    ensures Pending(Log(s, e))
  {
    Pushed(s, e);
    hide Count;
    OrderKept(s, Log(s, e), [e]);
  }

  lemma DeliverInv(s: State)
    requires Pending(s) && Settled(s) && (s.status == Success ==> s.errors == [])
    requires Tally(s, true, true, 0) || (Tally(s, true, true, 1) && s.drained)
    ensures Inv(Deliver(s))
  {
    Pushed(s, DeliveryTried);
    PendingLog(s, DeliveryTried);
    hide Count;
    hide InOrder;
    OrderIgnores(Log(s, DeliveryTried), Deliver(s));
  }

  lemma OrderIgnores(s: State, t: State)
    requires InOrder(s) && t.body == s.body && t.made == s.made && t.committed == s.committed && t.log == s.log
    ensures InOrder(t)
  {
  }

  lemma AfterClosesInv(s: State)
    requires Pending(s) && Settled(s) && Tally(s, true, true, 0)
    ensures Inv(AfterCloses(s))
  {
    hide Count;
    var dropped := s.(consumerCancelled := s.made.ConsumerMade? && !s.consumerDone);
    var t := if s.errors != [] && s.primary == NoError && s.status != Cancelled then dropped.(status := Incomplete) else dropped;
    OrderIgnores(s, t);
    hide InOrder;
    assert Pending(t);
    DeliverInv(t);
  }

  lemma CloseAgentInv(s: State)
    requires Pending(s) && Settled(s) && Tally(s, true, false, 0)
    ensures Inv(CloseAgent(s))
  {
    hide InOrder;
    hide Count;
    if HasAgent(s.made) {
      Pushed(s, AgentCloseCalled);
      PendingLog(s, AgentCloseCalled);
      OrderIgnores(Log(s, AgentCloseCalled), CloseAgent(s));
    } else {
      AfterClosesInv(s);
    }
  }

  lemma CloseSessionInv(s: State)
    requires Pending(s) && Settled(s) && Tally(s, false, false, 0)
    ensures Inv(CloseSession(s))
  {
    hide InOrder;
    hide Count;
    if HasSession(s.made) {
      Pushed(s, SessionCloseCalled);
      PendingLog(s, SessionCloseCalled);
      OrderIgnores(Log(s, SessionCloseCalled), CloseSession(s));
    } else {
      CloseAgentInv(s);
    }
  }

  ghost predicate CanContinue(s: State, next: After) {
    if next.ToCloses? then Tally(s, false, false, 0) else Tally(s, true, true, 1) && s.status == Cancelled
  }

  lemma ContinueInv(s: State, next: After)
    requires Pending(s) && Settled(s) && CanContinue(s, next) && (next.ToRedelivery? ==> s.drained)
    ensures Inv(Continue(s, next))
  {
    if next.ToCloses? { CloseSessionInv(s); } else { DeliverInv(s); }
  }

  lemma CancelAndDrainInv(s: State, next: After)
    requires Pending(s) && Settled(s) && CanContinue(s, next) && (next.ToRedelivery? ==> !s.drained && HasTurn(s.made))
    ensures Inv(CancelAndDrain(s, next))
  {
    hide Count;
    hide InOrder;
    if !s.drained && HasTurn(s.made) {
      var d := s.(drained := true);
      var t := Log(d, TurnCancelCalled);
      Pushed(d, TurnCancelCalled);
      OrderKept(s, t, [TurnCancelCalled]);
      OrderIgnores(t, CancelAndDrain(s, next));
      hide CloseSession;
      hide Deliver;
    } else {
      ContinueInv(s, next);
      hide Inv;
    }
  }

  /** What the invariant gives at a point where nothing is committed. */
  lemma PendingFacts(s: State)
    requires Inv(s) && s.committed.None? && !s.pc.Done?
    ensures Pending(s)
    ensures s.pc.Begin? ==> Settled(s) && Tally(s, false, false, 0)
    ensures InDrain(s.pc) ==> s.drained && CanContinue(s, s.pc.next)
    ensures s.pc.ClosingSession? ==> Settled(s) && Tally(s, true, false, 0)
    ensures s.pc.ClosingAgent? ==> Settled(s) && Tally(s, true, true, 0)
    ensures s.pc.HandedBack? ==> Settled(s) && CanContinue(s, ToRedelivery) && !s.drained && HasTurn(s.made)
  {
    hide Count;
    hide InOrder;
  }

  lemma FaultPending(s: State, fault: bool, op: Operation)
    requires Pending(s)
    ensures Pending(Fault(s, fault, op))
  {
    hide Count;
    OrderIgnores(s, Fault(s, fault, op));
    hide InOrder;
  }

  lemma OperationEndsInv(s: State, fault: bool, t: State)
    requires Inv(s) && Step(s, OperationEnds(fault)) == Some(t)
    ensures Inv(t)
  {
    hide Count;
    hide InOrder;
    hide Pending;
    assert s.committed.None? && !s.pc.Done?;
    PendingFacts(s);
    match s.pc {
      case CancellingTurn(next) =>
        FaultPending(s, fault, TurnCancel);
        var u := Fault(s, fault, TurnCancel);
        if u.made.ConsumerMade? { DrainStartsInv(s, u, next); } else { ContinueInv(u, next); }
      case Draining(next) => DrainEndsInv(s, fault, next);
      case ClosingSession =>
        FaultPending(s, fault, SessionClose);
        CloseAgentInv(Fault(s, fault, SessionClose));
      case ClosingAgent =>
        FaultPending(s, fault, AgentClose);
        AfterClosesInv(Fault(s, fault, AgentClose));
      case _ =>
    }
  }

  lemma DrainEndsInv(s: State, fault: bool, next: After)
    requires Inv(s) && s.pc == Draining(next)
    ensures Inv(Continue(Log(Fault(s, fault, EventDrain), DrainEnded), next))
  {
    hide Count;
    hide InOrder;
    PendingFacts(s);
    FaultPending(s, fault, EventDrain);
    var u := Fault(s, fault, EventDrain);
    Pushed(u, DrainEnded);
    PendingLog(u, DrainEnded);
    hide Pending;
    ContinueInv(Log(u, DrainEnded), next);
    hide Inv;
    hide Continue;
  }

  lemma DrainStartsInv(s: State, u: State, next: After)
    requires Inv(s) && s.pc == CancellingTurn(next) && s.made.ConsumerMade?
    requires u == s || exists op: Operation :: u == s.(errors := s.errors + [op])
    ensures Inv(u.(pc := Draining(next)))
  {
    hide Count;
    OrderIgnores(s, u.(pc := Draining(next)));
    hide InOrder;
  }

  /** Before a delivery both closes have been called wherever there was something to close. */
  lemma {:induction false} Counted(log: seq<Entry>, kind: Entry)
    requires Count(log, kind) > 0 && !kind.Dispatched?
    ensures kind in log
  {
    if Weight(log[|log| - 1], kind) == 0 { Counted(log[..|log| - 1], kind); }
  }

  lemma ObserveInv(s: State)
    requires Inv(s) && s.pc == Scheduled
    ensures Inv(Observe(s))
  {
    hide Count;
    OrderIgnores(s, Observe(s));
    hide InOrder;
  }

  lemma HandBackInv(o: State)
    requires Inv(o) && o.pc == Scheduled && o.status == Cancelled && HasTurn(o.made) && !o.drained
    ensures Inv(o.(pc := HandedBack))
  {
    hide Count;
    OrderIgnores(o, o.(pc := HandedBack));
    hide InOrder;
  }

  /** Committing at the entry into the hooks. */
  lemma CommitInv(o: State, e: Entry)
    requires Inv(o) && o.pc == Scheduled && (o.status == Cancelled && HasTurn(o.made) ==> o.drained)
    requires o.status == Success ==> o.requested == 0
    requires e == Dispatched(o.status, o.requested > 0, |o.errors|)
    ensures Inv(Log(o, e).(committed := Some(o.status), pc := Emitting))
  {
    hide Count;
    hide InOrder;
    var t := Log(o, e).(committed := Some(o.status), pc := Emitting);
    Pushed(o, e);
    PendingFacts(o);
    if HasSession(o.made) { Counted(o.log, SessionCloseCalled); }
    if HasAgent(o.made) { Counted(o.log, AgentCloseCalled); }
    NoDispatchYet(o.log);
    hide Pending;
    DispatchInOrder(o, t, e);
  }

  lemma PublishInv(s: State)
    requires Inv(s) && s.pc == Scheduled
    ensures Inv(Publish(s))
  {
    ObserveInv(s);
    var o := Observe(s);
    if o.status == Cancelled && HasTurn(o.made) && !o.drained {
      HandBackInv(o);
    } else {
      CommitInv(o, Dispatched(o.status, o.requested > 0, |o.errors|));
    }
    hide Inv;
  }

  lemma {:induction false} NoDispatchYet(log: seq<Entry>)
    requires Count(log, AnyDispatch) == 0
    ensures forall i :: 0 <= i < |log| ==> !log[i].Dispatched?
  {
    if log != [] { NoDispatchYet(log[..|log| - 1]); }
  }

  lemma DispatchInOrder(s: State, t: State, e: Entry)
    requires t.log == s.log + [e] && e.Dispatched? && t.committed == Some(e.status) && t.made == s.made
    requires forall i :: 0 <= i < |s.log| ==> !s.log[i].Dispatched?
    requires e.status == Cancelled && HasTurn(s.made) ==>
               TurnCancelCalled in s.log && (s.made.ConsumerMade? ==> DrainEnded in s.log)
    requires e.status == Success ==> t.body.Replied? && !e.pendingSeen && e.faults == 0
    requires (s.made.Nothing? || AgentCloseCalled in s.log) && (HasSession(s.made) ==> SessionCloseCalled in s.log)
    ensures InOrder(t)
  {
    assert forall i :: 0 <= i < |s.log| ==> t.log[i] == s.log[i];
    assert forall i :: 0 <= i < |t.log| && t.log[i].Dispatched? ==> i == |s.log|;
    assert t.log[..|s.log|] == s.log;
  }

  /** Steps of the other tasks, and the ends of a delivery, leave the log alone. */
  lemma QuietInv(s: State, a: Action, t: State)
    requires Inv(s) && Step(s, a) == Some(t)
    requires !a.FinalizerBegins? && !a.OperationEnds? && !a.DeliveryRuns? && !a.FinalizerResumes?
    ensures Inv(t)
  {
    hide Count;
    hide InOrder;
    match a {
      case DeliveryNeverRan => DeliveryEndsInv(s, t);
      case EmitEnds(_) => DeliveryEndsInv(s, t);
      case _ =>
        OrderIgnores(s, t);
        CallerInv(s, a, t);
    }
    hide Inv;
  }

  lemma DeliveryEndsInv(s: State, t: State)
    requires Inv(s) && (s.pc.Scheduled? || s.pc.Emitting?)
    requires (t == s.(pc := Done) && s.pc.Emitting?) || exists op: Operation :: t == s.(pc := Done, errors := s.errors + [op])
    ensures Inv(t)
  {
    hide Count;
    OrderIgnores(s, t);
    hide InOrder;
  }

  lemma CallerInv(s: State, a: Action, t: State)
    requires Inv(s) && Step(s, a) == Some(t) && InOrder(t)
    requires a.CancelRequested? || a.CallerCatches? || a.CallerLeaves? || a.ConsumerSettles?
    ensures Inv(t)
  {
    hide Count;
    hide InOrder;
  }

  lemma StepInv(s: State, a: Action, t: State)
    requires Inv(s) && Step(s, a) == Some(t)
    ensures Inv(t)
  {
    match a {
      case OperationEnds(fault) => OperationEndsInv(s, fault, t);
      case DeliveryRuns => PublishInv(s);
      case FinalizerBegins =>
        PendingFacts(s);
        hide Inv;
        if s.status == Cancelled { CancelAndDrainInv(s, ToCloses); } else { CloseSessionInv(s); }
      case FinalizerResumes =>
        PendingFacts(s);
        hide Inv;
        CancelAndDrainInv(s, ToRedelivery);
      case _ => QuietInv(s, a, t);
    }
  }

  /** In every reachable state of every interleaving. */
  lemma {:induction false} RunInv(s: State, actions: seq<Action>)
    requires Init(s) && Run(s, actions).Some?
    ensures Inv(Run(s, actions).value)
    decreases |actions|
  {
    hide Inv;
    if actions == [] {
      InitInv(s);
    } else {
      var n := |actions| - 1;
      RunInv(s, actions[..n]);
      StepInv(Run(s, actions[..n]).value, actions[n], Run(s, actions).value);
    }
  }

  // ---------------------------------------------------------------------------
  // The laws
  // ---------------------------------------------------------------------------

  /**
   * Under every interleaving: the completion hooks are entered at most once, the turn is cancelled at most
   * once, delivery is tried at most twice, no handle is closed twice, and once the finalizer is done each
   * handle that exists has been closed exactly once.
   */
  lemma EachAtMostOnce(s0: State, actions: seq<Action>)
    requires Init(s0) && Run(s0, actions).Some?
    ensures var s := Run(s0, actions).value;
      && Count(s.log, AnyDispatch) <= 1 && Count(s.log, TurnCancelCalled) <= 1 && Count(s.log, DeliveryTried) <= 2
      && Count(s.log, SessionCloseCalled) <= 1 && Count(s.log, AgentCloseCalled) <= 1
      && (s.pc.Done? ==>
            && Count(s.log, SessionCloseCalled) == (if HasSession(s.made) then 1 else 0)
            && Count(s.log, AgentCloseCalled) == (if HasAgent(s.made) then 1 else 0))
  {
    RunInv(s0, actions);
  }

  /** What a committed status vouches for, at the very moment of its dispatch. */
  lemma CommittedMeansIt(s0: State, actions: seq<Action>, i: nat)
    requires Init(s0) && Run(s0, actions).Some?
    requires i < |Run(s0, actions).value.log| && Run(s0, actions).value.log[i].Dispatched?
    ensures var s := Run(s0, actions).value;
      var e := s.log[i];
      && s.committed == Some(e.status)
      && (e.status == Cancelled && HasTurn(s.made) ==>
            TurnCancelCalled in s.log[..i] && (s.made.ConsumerMade? ==> DrainEnded in s.log[..i]))
      && (e.status == Success ==> s.body.Replied? && !e.pendingSeen && e.faults == 0)
      && (HasAgent(s.made) ==> AgentCloseCalled in s.log[..i]) && (HasSession(s.made) ==> SessionCloseCalled in s.log[..i])
  {
    RunInv(s0, actions);
  }

  /** How `execute` ends, against what it announced. */
  lemma ResultMatchesAnnouncement(s0: State, actions: seq<Action>)
    requires Init(s0) && Run(s0, actions).Some? && Run(s0, actions).value.left.Some?
    ensures var s := Run(s0, actions).value;
      && (s.left == Some(ReturnsReply) <==> s.committed == Some(Success) && s.primary == NoError && s.errors == [])
      && (s.left == Some(RaisesBody) <==> s.body.Failed?)
      && (s.left == Some(RaisesCancelled) <==> s.primary == CancelledError)
      && (s.left == Some(RaisesCleanup) ==> s.body.Replied? && s.committed != Some(Cancelled))
      && (s.committed.None? ==> s.errors != [] && s.left != Some(ReturnsReply))
  {
    RunInv(s0, actions);
    hide Counters;
    hide InOrder;
  }

  /** A cancellation raised in the waiting caller is never swallowed: `execute` does not return its reply. */
  lemma CaughtCancellationIsNotSwallowed(s0: State, actions: seq<Action>)
    requires Init(s0) && Run(s0, actions).Some? && Run(s0, actions).value.left.Some?
    requires CallerCatches in actions
    ensures Run(s0, actions).value.left.value in {RaisesCancelled, RaisesBody}
  {
    CaughtIsRecorded(s0, actions);
    RunInv(s0, actions);
    hide Counters;
    hide InOrder;
  }

  lemma PrimaryStays(s: State, a: Action, t: State)
    requires Step(s, a) == Some(t) && (s.primary != NoError || a.CallerCatches?)
    ensures t.primary != NoError
  {
    hide Log;
    hide Fault;
    hide AfterCloses;
    hide CloseAgent;
    hide CloseSession;
    hide Continue;
    hide CancelAndDrain;
  }

  lemma {:induction false} CaughtIsRecorded(s0: State, actions: seq<Action>)
    requires Run(s0, actions).Some? && CallerCatches in actions
    ensures Run(s0, actions).value.primary != NoError
    decreases |actions|
  {
    hide Step;
    var n := |actions| - 1;
    if actions[n] != CallerCatches {
      assert CallerCatches in actions[..n];
      CaughtIsRecorded(s0, actions[..n]);
    }
    PrimaryStays(Run(s0, actions[..n]).value, actions[n], Run(s0, actions).value);
  }

  // ---------------------------------------------------------------------------
  // Progress
  // ---------------------------------------------------------------------------

  /** How many more steps the finalizer can take at most. */
  function Rank(s: State): nat {
    match s.pc
    case Begin => 11
    case CancellingTurn(next) => if next.ToCloses? then 10 else 4
    case Draining(next) => if next.ToCloses? then 9 else 3
    case ClosingSession => 8
    case ClosingAgent => 7
    case HandedBack => 5
    case Scheduled => if s.drained || !HasTurn(s.made) then 2 else 6
    case Emitting => 1
    case Done => 0
  }

  /** Every step of the finalizer and of its deliveries counts down; nothing a caller does counts up. */
  lemma StepCountsDown(s: State, a: Action, t: State)
    requires Shape(s) && Step(s, a) == Some(t)
    ensures Rank(t) <= Rank(s) && (ByFinalizer(a) ==> Rank(t) < Rank(s))
  {
    match a {
      case FinalizerBegins => DrainRank(s);
      case FinalizerResumes => DrainRank(s);
      case OperationEnds(fault) => OperationCountsDown(s, fault, t);
      case _ =>
    }
    hide CancelAndDrain;
    hide CloseSession;
  }

  lemma OperationCountsDown(s: State, fault: bool, t: State)
    requires Shape(s) && Step(s, OperationEnds(fault)) == Some(t)
    ensures Rank(t) < Rank(s)
  {
    hide AfterCloses;
    hide CloseAgent;
    hide CloseSession;
    hide Deliver;
    match s.pc {
      case CancellingTurn(next) => ContinueRank(Fault(s, fault, TurnCancel));
      case Draining(next) => ContinueRank(Log(Fault(s, fault, EventDrain), DrainEnded));
      case ClosingSession => ContinueRank(Fault(s, fault, SessionClose));
      case ClosingAgent => ContinueRank(Fault(s, fault, AgentClose));
      case _ =>
    }
  }

  lemma DrainRank(s: State)
    ensures Rank(CloseSession(s)) <= 8 && Rank(CancelAndDrain(s, ToCloses)) <= 10
    ensures !s.drained && HasTurn(s.made) ==> Rank(CancelAndDrain(s, ToRedelivery)) == 4
  {
    ContinueRank(s);
    hide CloseSession;
  }

  lemma ContinueRank(s: State)
    ensures Rank(AfterCloses(s)) <= 6 && Rank(CloseAgent(s)) <= 7 && Rank(CloseSession(s)) <= 8
    ensures s.drained ==> Rank(Deliver(s)) == 2
    ensures Continue(s, ToCloses) == CloseSession(s) && Continue(s, ToRedelivery) == Deliver(s)
  {
  }

  function Steps(actions: seq<Action>): nat {
    if actions == [] then 0
    else Steps(actions[..|actions| - 1]) + (if ByFinalizer(actions[|actions| - 1]) then 1 else 0)
  }

  /** However often the caller is cancelled, finalization is over after at most eleven steps of its own. */
  lemma {:induction false} FinalizationIsBounded(s0: State, actions: seq<Action>)
    requires Init(s0) && Run(s0, actions).Some?
    ensures Steps(actions) + Rank(Run(s0, actions).value) <= 11
    decreases |actions|
  {
    if actions != [] {
      var n := |actions| - 1;
      FinalizationIsBounded(s0, actions[..n]);
      RunInv(s0, actions[..n]);
      StepCountsDown(Run(s0, actions[..n]).value, actions[n], Run(s0, actions).value);
      hide Inv;
      hide Step;
      hide Rank;
    }
  }

  /** And it is never stuck: until it is done, some step of its own is possible, whatever the caller does. */
  lemma NeverStuck(s: State)
    requires !s.pc.Done?
    ensures exists a :: ByFinalizer(a) && Step(s, a).Some?
  {
    var a := match s.pc
      case Begin => FinalizerBegins
      case Scheduled => DeliveryRuns
      case HandedBack => FinalizerResumes
      case Emitting => EmitEnds(true)
      case _ => OperationEnds(true);
    assert ByFinalizer(a) && Step(s, a).Some?;
  }
}
