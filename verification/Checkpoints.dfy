/** The checkpoint record (checkpoint.py) as the engine holds it in memory. */
module Checkpoints {
  import opened Prelude
  import opened Outcomes

  const SCHEMA_VERSION: int := 2
  const IN_FLIGHT := "in_flight"
  const COMPLETED := "completed"

  /** One serialized outcome. */
  datatype OutcomeRecord =
    Record(
        status: string,
        preferredLabel: Option<string>,
        suggestedNextIds: Option<seq<RawId>>,
        isExplicit: bool,
        failureReason: Option<Message>,
        notes: Option<Message>)

  datatype EngineCounters = EngineCounters(
    iterationCount: nat,
    executionCounts: map<NodeId, nat>,
    gateRetries: nat,
    routeRetries: nat,
    steps: nat)

  /** Identity of the graph: the hash of its source text, and the text. */
  datatype GraphIdentity = GraphIdentity(fingerprint: string, dotSource: string)

  datatype Checkpoint = Checkpoint(
    currentNode: NodeId,
    completedNodes: seq<NodeId>,
    context: Context,
    nodeRetries: Assoc<NodeId, nat>,
    schemaVersion: int,
    runState: string,
    nodeOutcomes: Assoc<NodeId, OutcomeRecord>,
    counters: EngineCounters,
    graph: GraphIdentity)

  /** `_serialize_node_outcomes`, one entry. */
  function ToRecord(o: Outcome): OutcomeRecord {
    Record(StatusText(o.status), o.preferredLabel, o.suggestedNextIds, o.isExplicit, o.failureReason, o.notes)
  }

  predicate ValidRecord(r: OutcomeRecord) {
    ParseStatus(r.status).Some?
  }

  /** `_outcome_from_checkpoint_record`. */
  function FromRecord(r: OutcomeRecord, retries: nat): Outcome
    requires ValidRecord(r)
  {
    Outcome(ParseStatus(r.status).value, r.preferredLabel, r.suggestedNextIds, None, r.notes, r.failureReason,
            r.isExplicit, Some(retries + 1), NoPayload)
  }

  /** Serializing an outcome and rehydrating it leaves exactly its durable part. */
  lemma RecordRoundTrip(o: Outcome)
    ensures ValidRecord(ToRecord(o))
    ensures FromRecord(ToRecord(o), Attempts(o) - 1) == Durable(o)
    ensures var back := FromRecord(ToRecord(o), Attempts(o) - 1);
      && back.status == o.status && back.preferredLabel == o.preferredLabel && back.suggestedNextIds == o.suggestedNextIds
      && back.isExplicit == o.isExplicit && back.notes == o.notes && back.failureReason == o.failureReason
      && (o.attemptCount.Some? && o.attemptCount.value > 0 ==> back.attemptCount == o.attemptCount)
  {
    StatusRoundTrip(o.status);
  }

  function RecordsOf(outcomes: Assoc<NodeId, Outcome>): (r: Assoc<NodeId, OutcomeRecord>)
    ensures |r| == |outcomes|
    ensures forall i :: 0 <= i < |r| ==> r[i] == (outcomes[i].0, ToRecord(outcomes[i].1))
  {
    seq(|outcomes|, i requires 0 <= i < |outcomes| => (outcomes[i].0, ToRecord(outcomes[i].1)))
  }

  function RetriesOf(outcomes: Assoc<NodeId, Outcome>): (r: Assoc<NodeId, nat>)
    ensures |r| == |outcomes|
    ensures forall i :: 0 <= i < |r| ==> r[i] == (outcomes[i].0, Attempts(outcomes[i].1) - 1)
  {
    seq(|outcomes|, i requires 0 <= i < |outcomes| => (outcomes[i].0, Attempts(outcomes[i].1) - 1))
  }

  predicate ValidRecords(records: Assoc<NodeId, OutcomeRecord>) {
    forall i :: 0 <= i < |records| ==> ValidRecord(records[i].1)
  }

  function RestoreOutcomes(records: Assoc<NodeId, OutcomeRecord>, retries: Assoc<NodeId, nat>): (r: Assoc<NodeId, Outcome>)
    requires ValidRecords(records)
    ensures |r| == |records|
    ensures forall i :: 0 <= i < |r| ==>
      r[i] == (records[i].0, FromRecord(records[i].1, Lookup(retries, records[i].0).Or(0)))
  {
    seq(|records|, i requires 0 <= i < |records| =>
      (records[i].0, FromRecord(records[i].1, Lookup(retries, records[i].0).Or(0))))
  }

  function DurableAll(outcomes: Assoc<NodeId, Outcome>): (r: Assoc<NodeId, Outcome>)
    ensures |r| == |outcomes|
    ensures forall i :: 0 <= i < |r| ==> r[i] == (outcomes[i].0, Durable(outcomes[i].1))
  {
    seq(|outcomes|, i requires 0 <= i < |outcomes| => (outcomes[i].0, Durable(outcomes[i].1)))
  }

  /** Saving and restoring a whole outcome table keeps its order and every durable field. */
  lemma OutcomesRoundTrip(outcomes: Assoc<NodeId, Outcome>)
    requires DistinctKeys(outcomes)
    ensures ValidRecords(RecordsOf(outcomes))
    ensures RestoreOutcomes(RecordsOf(outcomes), RetriesOf(outcomes)) == DurableAll(outcomes)
  {
    var records, retries := RecordsOf(outcomes), RetriesOf(outcomes);
    forall i | 0 <= i < |outcomes| ensures ValidRecord(records[i].1) {
      RecordRoundTrip(outcomes[i].1);
    }
    assert DistinctKeys(retries);
    forall i | 0 <= i < |outcomes|
      ensures RestoreOutcomes(records, retries)[i] == DurableAll(outcomes)[i]
    {
      LookupAt(retries, outcomes[i].0, i);
      RecordRoundTrip(outcomes[i].1);
    }
  }
}
