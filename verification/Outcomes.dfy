/** Results of executing a node (outcome.py) and the values they carry. */
module Outcomes {
  import opened Prelude

  type NodeId = string
  type Key = string

  datatype StageStatus = Success | PartialSuccess | Retry | Fail | Skipped

  /** The serialized form of a status. */
  function StatusText(s: StageStatus): string {
    match s
    case Success => "success"
    case PartialSuccess => "partial_success"
    case Retry => "retry"
    case Fail => "fail"
    case Skipped => "skipped"
  }

  function ParseStatus(text: string): (r: Option<StageStatus>)
    ensures r.Some? ==> StatusText(r.value) == text
  {
    if text == "success" then Some(Success)
    else if text == "partial_success" then Some(PartialSuccess)
    else if text == "retry" then Some(Retry)
    else if text == "fail" then Some(Fail)
    else if text == "skipped" then Some(Skipped)
    else None
  }

  lemma StatusRoundTrip(s: StageStatus)
    ensures ParseStatus(StatusText(s)) == Some(s)
  {
    match s {
      case Success =>
      case PartialSuccess => assert "partial_success"[0] != "success"[0];
      case Retry =>
      case Fail =>
      case Skipped => assert "skipped"[1] != "success"[1];
    }
  }

  /** A context value: absent-like `None`, or any other value through its `str()` form. */
  datatype Value = Null | Text(text: string)

  type Context = map<Key, Value>

  /** One raw entry of `suggested_next_ids`, as JSON may deliver it. */
  datatype RawId = StrId(id: string) | IntId(n: int) | OtherId

  /**
   * Diagnostic texts. The engine tests only whether one is present and non-empty,
   * so a generated message is its kind and arguments rather than its wording.
   */
  datatype Message =
    | Plain(text: string)
    | NoMatchingEdge(node: NodeId)
    | NoEdgeFromSkipped(node: NodeId)
    | StepsExceeded(bound: nat)
    | DurationExceeded
    | CancelledByUser
    | NoConvergence(node: NodeId)
    | UnsatisfiedGates(nodes: seq<NodeId>)
    | PredecessorFailed
    | RefusedInputs(node: NodeId, keys: set<Key>)
    | NodeTimedOut(node: NodeId)
    | MaxRetriesExceeded
    | RetriesExhausted
    | AutoStatusPromotion
    | ArtifactAbsent(node: NodeId)
    | ArtifactStale(node: NodeId)
    | ArtifactUnreadable(node: NodeId)
    | ArtifactBlank(node: NodeId)
    | MalformedStatusFile(node: NodeId)
    | PipelineCompleted

  predicate MessageTruthy(m: Option<Message>) {
    m.Some? && !(m.value.Plain? && m.value.text == "")
  }

  /** Fields of an outcome that never influence routing and are never persisted. */
  datatype Payload = Payload(sessionId: Option<string>, responseText: Option<string>, failedStep: Option<string>)

  const NoPayload := Payload(None, None, None)

  datatype Outcome = Outcome(
    status: StageStatus,
    preferredLabel: Option<string>,
    suggestedNextIds: Option<seq<RawId>>,
    contextUpdates: Option<Context>,
    notes: Option<Message>,
    failureReason: Option<Message>,
    isExplicit: bool,
    attemptCount: Option<nat>,
    payload: Payload)
  {
    predicate IsSuccess() {
      status.Success? || status.PartialSuccess?
    }

    function Suggestions(): seq<RawId> {
      suggestedNextIds.Or([])
    }
  }

  /** An outcome the engine makes up itself: no verdict was asserted. */
  function Synthetic(status: StageStatus, notes: Option<Message>, reason: Option<Message>): (o: Outcome)
    ensures !o.isExplicit && o.status == status && o.contextUpdates.None?
  {
    Outcome(status, None, None, None, notes, reason, false, None, NoPayload)
  }

  /**
   * What survives a checkpoint: the routing and gating fields. Context updates are
   * already merged into the saved context, and sessions die with the process.
   */
  function Durable(o: Outcome): (d: Outcome)
    ensures d.status == o.status && d.isExplicit == o.isExplicit
    ensures d.preferredLabel == o.preferredLabel && d.suggestedNextIds == o.suggestedNextIds
  {
    o.(contextUpdates := None, attemptCount := Some(Attempts(o)), payload := NoPayload)
  }

  /** `outcome.attempt_count or 1`. */
  function Attempts(o: Outcome): (n: nat)
    ensures n >= 1
  {
    if o.attemptCount.Some? && o.attemptCount.value > 0 then o.attemptCount.value else 1
  }

  lemma DurableTwice(o: Outcome)
    ensures Durable(Durable(o)) == Durable(o)
  {
  }
}
