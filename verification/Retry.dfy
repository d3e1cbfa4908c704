/** The per-node retry ladder (retry.py). */
module Retry {
  import opened Prelude
  import opened Outcomes
  import opened Graphs
  import opened NodeFiles
  import opened Freshness

  /** How one call of the handler ended. Exceptions are pre-classified as retryable or terminal. */
  datatype Answer =
    | Returned(outcome: Outcome)
    | Raised(retryable: bool, text: string)
    | ChildDotFault(text: string)

  /** One attempt: when it began, what the handler did, and the files found right after. */
  datatype Attempt = Attempt(start: int, answer: Answer, file: StatusFile, artifact: Artifact)

  /** All the ladder can meet; attempts are numbered from 1. */
  datatype LadderWorld = LadderWorld(start: int, attempts: nat -> Attempt, lastArtifact: Artifact)

  datatype StageEvent = Retrying(attempt: nat) | StageFailed(attempts: nat, finalStatus: StageStatus)

  datatype LadderEnd = Finished(outcome: Outcome) | Faulted(text: string)

  datatype LadderRun = LadderRun(end: LadderEnd, calls: nat, events: seq<StageEvent>)

  function MaxAttempts(n: Node): (m: nat)
    ensures m >= 1
  {
    n.maxRetries + 1
  }

  /** The outcome of a returned attempt once its status.json has had its say. */
  function Judged(n: Node, a: Attempt): Outcome
    requires a.answer.Returned?
  {
    ReadStatusOverride(n, a.file, a.start, a.answer.outcome).Or(a.answer.outcome)
  }

  function Failure(text: string, attempt: nat): Outcome {
    Synthetic(Fail, None, Some(Plain(text))).(attemptCount := Some(attempt))
  }

  /** What is returned when the last attempt still asked for a retry. */
  function Exhausted(n: Node, w: LadderWorld, last: Outcome): Outcome {
    if n.allowPartial then
      var accepted := Synthetic(PartialSuccess, Some(RetriesExhausted), last.failureReason)
                      .(attemptCount := Some(MaxAttempts(n)));
      CheckMustWrite(n, accepted, w.start, w.lastArtifact).Or(accepted)
    else
      Synthetic(Fail, None, Some(MaxRetriesExceeded)).(attemptCount := Some(MaxAttempts(n)))
  }

  /** Whether attempt `k` calls for another one, attempts permitting. */
  predicate Again(n: Node, w: LadderWorld, k: nat) {
    var a := w.attempts(k);
    match a.answer
    case Returned(_) =>
      var o := Judged(n, a);
      o.status.Retry? || (o.IsSuccess() && CheckMustWrite(n, o, w.start, a.artifact).Some?)
    case Raised(retryable, _) => retryable
    case ChildDotFault(_) => false
  }

  /** How the ladder ends when attempt `k` is its last. */
  function Settle(n: Node, w: LadderWorld, k: nat): LadderEnd {
    var a := w.attempts(k);
    match a.answer
    case Returned(_) =>
      var o := Judged(n, a);
      if o.status.Retry? then Finished(Exhausted(n, w, o))
      else if o.IsSuccess() then
        Finished(CheckMustWrite(n, o, w.start, a.artifact).Or(o).(attemptCount := Some(k)))
      else Finished(o.(attemptCount := Some(k)))
    case Raised(_, text) => Finished(Failure(text, k))
    case ChildDotFault(text) => Faulted(text)
  }

  /** Only a failure, or a partial acceptance after exhaustion, is announced as failed. */
  predicate Announced(n: Node, w: LadderWorld, k: nat) {
    var a := w.attempts(k);
    match a.answer
    case Returned(_) =>
      var o := Judged(n, a);
      o.status.Fail? || o.status.Retry? || (o.IsSuccess() && CheckMustWrite(n, o, w.start, a.artifact).Some?)
    case Raised(_, _) => true
    case ChildDotFault(_) => false
  }

  function LastEvents(n: Node, w: LadderWorld, k: nat): seq<StageEvent> {
    var end := Settle(n, w, k);
    if end.Finished? && Announced(n, w, k) then [StageFailed(k, end.outcome.status)] else []
  }

  /** The number of calls: the first attempt that does not call for another, or the last one allowed. */
  function Calls(n: Node, w: LadderWorld, k: nat): (c: nat)
    requires 1 <= k <= MaxAttempts(n)
    ensures k <= c <= MaxAttempts(n)
    ensures forall j :: k <= j < c ==> Again(n, w, j)
    ensures c < MaxAttempts(n) ==> !Again(n, w, c)
    decreases MaxAttempts(n) - k
  {
    if k < MaxAttempts(n) && Again(n, w, k) then Calls(n, w, k + 1) else k
  }

  function RetryEvents(count: nat): seq<StageEvent> {
    seq(count, (i: nat) => Retrying(i + 1))
  }

  /** The whole ladder in one expression. */
  function Ladder(n: Node, w: LadderWorld): LadderRun {
    var c := Calls(n, w, 1);
    LadderRun(Settle(n, w, c), c, RetryEvents(c - 1) + LastEvents(n, w, c))
  }

  /** The attempt loop. */
  method ExecuteWithRetry(n: Node, w: LadderWorld) returns (run: LadderRun)
    ensures run == Ladder(n, w)
  {
    hide ReadStatusOverride;
    hide CheckMustWrite;
    var events: seq<StageEvent> := [];
    var attempt := 1;
    while attempt <= MaxAttempts(n)
      invariant 1 <= attempt <= MaxAttempts(n) + 1
      invariant attempt <= MaxAttempts(n) ==> Calls(n, w, 1) == Calls(n, w, attempt)
      invariant attempt <= MaxAttempts(n) ==> events == RetryEvents(attempt - 1)
      invariant attempt > MaxAttempts(n) ==> Calls(n, w, 1) == MaxAttempts(n)
      invariant attempt > MaxAttempts(n) ==> events == RetryEvents(MaxAttempts(n) - 1)
      invariant attempt > MaxAttempts(n) ==>
        var a := w.attempts(MaxAttempts(n)); a.answer.Returned? && Judged(n, a).status.Retry?
    {
      var a := w.attempts(attempt);
      match a.answer {
        case ChildDotFault(text) =>
          return LadderRun(Faulted(text), attempt, events);
        case Raised(retryable, text) =>
          if !retryable || attempt == MaxAttempts(n) {
            var failed := Failure(text, attempt);
            return LadderRun(Finished(failed), attempt, events + [StageFailed(attempt, failed.status)]);
          }
          events := events + [Retrying(attempt)];
        case Returned(handler) =>
          var outcome := handler;
          var override := ReadStatusOverride(n, a.file, a.start, handler);
          if override.Some? {
            outcome := override.value;
          }
          if outcome.status.Success? || outcome.status.PartialSuccess? {
            var violation := CheckMustWrite(n, outcome, w.start, a.artifact);
            if violation.None? {
              return LadderRun(Finished(outcome.(attemptCount := Some(attempt))), attempt, events);
            }
            if attempt == MaxAttempts(n) {
              var failed := violation.value.(attemptCount := Some(attempt));
              return LadderRun(Finished(failed), attempt, events + [StageFailed(attempt, failed.status)]);
            }
            events := events + [Retrying(attempt)];
          } else if outcome.status.Fail? {
            return LadderRun(Finished(outcome.(attemptCount := Some(attempt))), attempt,
                             events + [StageFailed(attempt, outcome.status)]);
          } else if outcome.status.Skipped? {
            return LadderRun(Finished(outcome.(attemptCount := Some(attempt))), attempt, events);
          } else if attempt < MaxAttempts(n) {
            events := events + [Retrying(attempt)];
          }
      }
      attempt := attempt + 1;
    }
    var last := MaxAttempts(n);
    var final := Exhausted(n, w, Judged(n, w.attempts(last)));
    return LadderRun(Finished(final), last, events + [StageFailed(last, final.status)]);
  }

  // ---------------------------------------------------------------------------
  // Laws
  // ---------------------------------------------------------------------------

  predicate IsRetrying(e: StageEvent) {
    e.Retrying?
  }

  function CountRetrying(events: seq<StageEvent>): nat {
    if events == [] then 0 else (if IsRetrying(events[0]) then 1 else 0) + CountRetrying(events[1..])
  }

  lemma {:induction false} CountAllRetrying(events: seq<StageEvent>, tail: seq<StageEvent>)
    requires forall e :: e in events ==> e.Retrying?
    requires forall e :: e in tail ==> !e.Retrying?
    ensures CountRetrying(events + tail) == |events|
  {
    if events == [] {
      assert events + tail == tail;
      if tail != [] {
        assert tail[0] in tail;
        CountAllRetrying([], tail[1..]);
        assert [] + tail[1..] == tail[1..];
      }
    } else {
      assert (events + tail)[1..] == events[1..] + tail;
      assert events[0] in events;
      CountAllRetrying(events[1..], tail);
    }
  }

  /** The trace law: call bounds, no RETRY out, one retrying event per extra call, a truthful failure event. */
  lemma LadderTrace(n: Node, w: LadderWorld)
    ensures var run := Ladder(n, w);
      && 1 <= run.calls <= MaxAttempts(n)
      && CountRetrying(run.events) == run.calls - 1
      && (forall i, e :: 0 <= i < |run.events| && run.events[i] == e && e.StageFailed? ==>
            i == |run.events| - 1 && e.attempts == run.calls &&
            run.end.Finished? && e.finalStatus == run.end.outcome.status)
      && (run.end.Finished? ==> !run.end.outcome.status.Retry?)
      && (run.end.Finished? && run.end.outcome.status.Fail? ==> |run.events| == run.calls)
      && (run.end.Faulted? ==> |run.events| == run.calls - 1)
  {
    var c := Calls(n, w, 1);
    CountAllRetrying(RetryEvents(c - 1), LastEvents(n, w, c));
  }

  /** Attempt `k` does not settle the node: a retryable raise, a RETRY, or a success short of its artifact. */
  predicate Unsettled(n: Node, w: LadderWorld, k: nat) {
    var a := w.attempts(k);
    || (a.answer.Raised? && a.answer.retryable)
    || (a.answer.Returned? &&
        var o := Judged(n, a);
        o.status == Retry ||
        ((o.status == Success || o.status == PartialSuccess) && n.mustWrite && !Delivered(a.artifact, w.start)))
  }

  lemma UnsettledExactly(n: Node, w: LadderWorld, k: nat)
    ensures Again(n, w, k) <==> Unsettled(n, w, k)
  {
    hide Judged;
    hide Delivered;
  }

  /** The outcome of a returned attempt: the handler's own, unless a fresh status.json says otherwise. */
  lemma JudgedExactly(n: Node, a: Attempt)
    requires a.answer.Returned?
    ensures var written := a.file.File? && WroteAfter(a.file.mtime, a.start);
      var o := Judged(n, a);
      && (!written || States(a.file.body, a.answer.outcome) ==> o == a.answer.outcome)
      && (written && (exists x :: States(a.file.body, x)) ==> States(a.file.body, o) && (o != a.answer.outcome ==> o.isExplicit))
      && (written && (forall x :: !States(a.file.body, x)) ==> o.status == Fail && o.isExplicit)
  {
    hide WroteAfter;
    hide States;
    OverrideExactly(n, a.file, a.start, a.answer.outcome);
    if ReadStatusOverride(n, a.file, a.start, a.answer.outcome).Some? {
      OverrideSays(n, a.file, a.start, a.answer.outcome);
    }
    hide ReadStatusOverride;
  }

  /** Which attempts are made: on and on while the last one settles nothing, as far as there are attempts. */
  lemma CallsExactly(n: Node, w: LadderWorld)
    ensures var c := Ladder(n, w).calls;
      && 1 <= c <= n.maxRetries + 1
      && (forall k :: 1 <= k < c ==> Unsettled(n, w, k))
      && (c < n.maxRetries + 1 ==> !Unsettled(n, w, c))
  {
    hide Again;
    hide Unsettled;
    hide Settle;
    hide LastEvents;
    forall k: nat ensures Again(n, w, k) <==> Unsettled(n, w, k) { UnsettledExactly(n, w, k); }
  }

  /** A settled outcome, stamped with the number of calls. */
  predicate StampedAs(end: LadderEnd, o: Outcome, calls: nat) {
    end == Finished(o.(attemptCount := Some(calls)))
  }

  /** How the ladder ends, by what its last attempt came to. */
  lemma EndExactly(n: Node, w: LadderWorld)
    ensures var run := Ladder(n, w);
      var a := w.attempts(run.calls);
      match a.answer
      case ChildDotFault(text) => run.end == Faulted(text)
      case Raised(_, text) =>
        run.end.Finished? && run.end.outcome.status == Fail && !run.end.outcome.isExplicit &&
        run.end.outcome.failureReason == Some(Plain(text)) && run.end.outcome.attemptCount == Some(run.calls)
      case Returned(_) =>
        var o := Judged(n, a);
        match o.status
        case Fail => StampedAs(run.end, o, run.calls)
        case Skipped => StampedAs(run.end, o, run.calls)
        case Success => EndsAsClaimed(n, w, run, o)
        case PartialSuccess => EndsAsClaimed(n, w, run, o)
        case Retry =>
          run.calls == n.maxRetries + 1 && run.end.Finished? && !run.end.outcome.isExplicit &&
          (run.end.outcome.status == PartialSuccess ==> run.end.outcome.failureReason == o.failureReason) &&
          run.end.outcome.status ==
            if n.allowPartial && (!n.mustWrite || Delivered(w.lastArtifact, w.start)) then PartialSuccess else Fail
  {
    hide Judged;
    hide Delivered;
  }

  /** A claimed success stands if its artifact is there, or none is asked for; else the ladder is exhausted and fails. */
  predicate EndsAsClaimed(n: Node, w: LadderWorld, run: LadderRun, o: Outcome) {
    if !n.mustWrite || Delivered(w.attempts(run.calls).artifact, w.start) then StampedAs(run.end, o, run.calls)
    else
      run.calls == n.maxRetries + 1 && run.end.Finished? && run.end.outcome.status == Fail && !run.end.outcome.isExplicit &&
      run.end.outcome.attemptCount == Some(run.calls)
  }

  /** A terminal raise ends the ladder where it happens. */
  lemma TerminalRaiseEndsIt(n: Node, w: LadderWorld, k: nat, text: string)
    requires 1 <= k <= n.maxRetries + 1 && w.attempts(k).answer == Raised(false, text)
    requires forall j :: 1 <= j < k ==> Unsettled(n, w, j)
    ensures var run := Ladder(n, w);
      run.calls == k && run.end.Finished? && run.end.outcome.status == Fail && run.end.outcome.failureReason == Some(Plain(text))
  {
    CallsExactly(n, w);
    EndExactly(n, w);
    hide Ladder;
    assert !Unsettled(n, w, k);
    hide Unsettled;
  }

  /** A set attempt count equals the calls made; it is unset only on one path. */
  lemma AttemptCountIsCalls(n: Node, w: LadderWorld)
    ensures var run := Ladder(n, w);
      run.end.Finished? ==>
        var a := w.attempts(run.calls);
        && (run.end.outcome.attemptCount.Some? ==> run.end.outcome.attemptCount.value == run.calls)
        && (run.end.outcome.attemptCount.None? <==>
              n.allowPartial && n.mustWrite && a.answer.Returned? && Judged(n, a).status.Retry? &&
              !Delivered(w.lastArtifact, w.start))
  {
  }

  /** An explicit verdict is the last attempt's own: asserted by the handler or by its status.json. */
  lemma ExplicitIsAsserted(n: Node, w: LadderWorld)
    ensures var run := Ladder(n, w);
      run.end.Finished? && run.end.outcome.isExplicit ==>
        var a := w.attempts(run.calls);
        && a.answer.Returned?
        && run.end.outcome == Judged(n, a).(attemptCount := Some(run.calls))
        && (a.answer.outcome.isExplicit || ReadStatusOverride(n, a.file, a.start, a.answer.outcome).Some?)
  {
  }

  /** A success out of the ladder met the artifact contract when it was checked. */
  lemma SuccessDelivered(n: Node, w: LadderWorld)
    ensures var run := Ladder(n, w);
      run.end.Finished? && run.end.outcome.IsSuccess() && n.mustWrite ==>
        Delivered(w.attempts(run.calls).artifact, w.start) || Delivered(w.lastArtifact, w.start)
  {
  }

  /** The same attempt, or the same without a status.json that predates it. */
  predicate SameButStaleFile(a: Attempt, a': Attempt) {
    a' == a || (a' == a.(file := NoFile) && !(a.file.File? && WroteAfter(a.file.mtime, a.start)))
  }

  /** A status.json no newer than the attempt's start leaves the whole ladder as if it were not there. */
  lemma StaleFileIsIgnored(n: Node, w: LadderWorld, w': LadderWorld)
    requires w'.start == w.start && w'.lastArtifact == w.lastArtifact
    requires forall k: nat :: SameButStaleFile(w.attempts(k), w'.attempts(k))
    ensures Ladder(n, w') == Ladder(n, w)
  {
    forall k: nat
      ensures Again(n, w', k) == Again(n, w, k) && Settle(n, w', k) == Settle(n, w, k)
      ensures LastEvents(n, w', k) == LastEvents(n, w, k)
    {
    }
    SameCalls(n, w, w', 1);
  }

  lemma {:induction false} SameCalls(n: Node, w: LadderWorld, w': LadderWorld, k: nat)
    requires 1 <= k <= MaxAttempts(n)
    requires forall j: nat :: Again(n, w', j) == Again(n, w, j)
    ensures Calls(n, w', k) == Calls(n, w, k)
    decreases MaxAttempts(n) - k
  {
    if k < MaxAttempts(n) && Again(n, w, k) {
      SameCalls(n, w, w', k + 1);
    }
  }
}
