/** The two files a node can leave behind: its artifact (must_write.py) and its status.json (status_file.py). */
module NodeFiles {
  import opened Prelude
  import opened Outcomes
  import opened Graphs
  import opened Freshness

  // ---------------------------------------------------------------------------
  // must_write=
  // ---------------------------------------------------------------------------

  datatype Artifact = Absent | Present(mtime: int, readable: bool, blank: bool)

  /** A fresh artifact with substance. */
  predicate Delivered(a: Artifact, start: int) {
    a.Present? && WroteAfter(a.mtime, start) && a.readable && !a.blank
  }

  /** The forced failure, or nothing when the contract is met or does not apply. */
  function CheckMustWrite(n: Node, o: Outcome, start: int, a: Artifact): (r: Option<Outcome>)
    ensures r.None? <==> !n.mustWrite || o.status.Fail? || o.status.Skipped? || Delivered(a, start)
    ensures r.Some? ==> r.value.status.Fail? && !r.value.isExplicit && r.value.attemptCount.None?
  {
    if !n.mustWrite || o.status.Fail? || o.status.Skipped? then None
    else if a.Absent? then Some(Synthetic(Fail, Some(ArtifactAbsent(n.id)), Some(ArtifactAbsent(n.id))))
    else if !WroteAfter(a.mtime, start) then
      Some(Synthetic(Fail, Some(ArtifactStale(n.id)), Some(ArtifactStale(n.id))))
    else if !a.readable then
      Some(Synthetic(Fail, Some(ArtifactUnreadable(n.id)), Some(ArtifactUnreadable(n.id))))
    else if a.blank then Some(Synthetic(Fail, Some(ArtifactBlank(n.id)), Some(ArtifactBlank(n.id))))
    else None
  }

  // ---------------------------------------------------------------------------
  // status.json
  // ---------------------------------------------------------------------------

  /** One field of the JSON object; `OtherJson` is any other type. */
  datatype Field =
    | Missing
    | JsonNull
    | JsonText(text: string)
    | JsonList(ids: seq<RawId>)
    | JsonObject(values: Context)
    | OtherJson

  datatype Body =
    | Unreadable
    | NotJson
    | NotAnObject
    | Fields(outcome: Field, preferredLabel: Field, suggestedNextIds: Field, contextUpdates: Field, notes: Field)

  datatype StatusFile = NoFile | StatFailed | File(mtime: int, body: Body)

  predicate Absentish(f: Field) {
    f.Missing? || f.JsonNull?
  }

  /** The fields a verdict file must get right. */
  predicate WellFormedBody(b: Body) {
    && b.Fields?
    && b.outcome.JsonText? && ParseStatus(b.outcome.text).Some?
    && (Absentish(b.suggestedNextIds) || b.suggestedNextIds.JsonList?)
    && (Absentish(b.contextUpdates) || b.contextUpdates.JsonObject?)
    && (Absentish(b.preferredLabel) || b.preferredLabel.JsonText?)
    && (Absentish(b.notes) || b.notes.JsonText?)
  }

  /** The verdict a well-formed body states, carrying the engine's own payload. */
  function VerdictOf(b: Body, payload: Payload): (o: Outcome)
    requires WellFormedBody(b)
    ensures o.isExplicit && o.payload == payload
  {
    Outcome(
      ParseStatus(b.outcome.text).value,
      if b.preferredLabel.JsonText? then Some(b.preferredLabel.text) else None,
      if b.suggestedNextIds.JsonList? then Some(b.suggestedNextIds.ids) else None,
      if b.contextUpdates.JsonObject? then Some(b.contextUpdates.values) else None,
      if b.notes.JsonText? then Some(Plain(b.notes.text)) else None,
      None,
      true,
      None,
      payload)
  }

  function Malformed(n: Node, handler: Outcome): Outcome {
    Outcome(Fail, None, None, None, Some(MalformedStatusFile(n.id)), Some(MalformedStatusFile(n.id)),
            true, None, Payload(handler.payload.sessionId, None, None))
  }

  /** The file says nothing the handler did not already say. */
  predicate Matches(a: Outcome, b: Outcome) {
    a.status == b.status && a.preferredLabel == b.preferredLabel && a.suggestedNextIds == b.suggestedNextIds &&
    a.contextUpdates == b.contextUpdates && a.notes == b.notes
  }

  function ReadStatusOverride(n: Node, f: StatusFile, start: int, handler: Outcome): (r: Option<Outcome>)
    ensures r.Some? ==> r.value.isExplicit && f.File? && WroteAfter(f.mtime, start)
    ensures r.Some? ==> r.value.payload.sessionId == handler.payload.sessionId
  {
    if !f.File? || !WroteAfter(f.mtime, start) then None
    else if !WellFormedBody(f.body) then Some(Malformed(n, handler))
    else
      var candidate := VerdictOf(f.body, Payload(handler.payload.sessionId, handler.payload.responseText, None));
      if Matches(candidate, handler) then None else Some(candidate)
  }

  /** The audit file a handler writes about its own outcome. */
  function AuditBody(o: Outcome): Body {
    Fields(
      JsonText(StatusText(o.status)),
      if o.preferredLabel.Some? then JsonText(o.preferredLabel.value) else JsonNull,
      if o.suggestedNextIds.Some? then JsonList(o.suggestedNextIds.value) else JsonNull,
      if o.contextUpdates.Some? then JsonObject(o.contextUpdates.value) else JsonNull,
      if o.notes.Some? && o.notes.value.Plain? then JsonText(o.notes.value.text) else JsonNull)
  }

  /** Reading back a handler's own audit file is inert: it cannot make a plain outcome explicit. */
  lemma AuditFileIsInert(n: Node, o: Outcome, mtime: int, start: int)
    requires o.notes.Some? ==> o.notes.value.Plain?
    ensures ReadStatusOverride(n, File(mtime, AuditBody(o)), start, o) == None
  {
    StatusRoundTrip(o.status);
  }

  /** A field holds `text`, or is absent where there is none. */
  predicate HoldsText(f: Field, text: Option<string>) {
    if text.Some? then f == JsonText(text.value) else f == Missing || f == JsonNull
  }

  /** The body states exactly the status, label, suggestions, context updates and notes of `o`. */
  predicate States(b: Body, o: Outcome) {
    && b.Fields? && b.outcome == JsonText(StatusText(o.status)) && HoldsText(b.preferredLabel, o.preferredLabel)
    && (if o.suggestedNextIds.Some? then b.suggestedNextIds == JsonList(o.suggestedNextIds.value)
        else b.suggestedNextIds == Missing || b.suggestedNextIds == JsonNull)
    && (if o.contextUpdates.Some? then b.contextUpdates == JsonObject(o.contextUpdates.value)
        else b.contextUpdates == Missing || b.contextUpdates == JsonNull)
    && (if o.notes.Some? then o.notes.value.Plain? && b.notes == JsonText(o.notes.value.text)
        else b.notes == Missing || b.notes == JsonNull)
  }

  lemma StatedIsWellFormed(b: Body, o: Outcome)
    requires States(b, o)
    ensures WellFormedBody(b) && Matches(VerdictOf(b, o.payload), o)
  {
    StatusRoundTrip(o.status);
    hide ParseStatus;
    hide StatusText;
  }

  lemma WellFormedStates(b: Body, payload: Payload)
    requires WellFormedBody(b)
    ensures States(b, VerdictOf(b, payload))
  {
    hide ParseStatus;
    hide StatusText;
  }

  lemma StatesOnlyMatching(b: Body, o: Outcome, payload: Payload)
    requires WellFormedBody(b) && Matches(VerdictOf(b, payload), o)
    ensures States(b, o)
  {
    WellFormedStates(b, payload);
    hide StatusText;
    hide ParseStatus;
  }

  /** A node-written file decides the attempt exactly when it is fresh and does not state just what the handler returned. */
  lemma OverrideExactly(n: Node, f: StatusFile, start: int, handler: Outcome)
    ensures ReadStatusOverride(n, f, start, handler).Some? <==>
      f.File? && WroteAfter(f.mtime, start) && !States(f.body, handler)
  {
    hide States;
    if f.File? {
      if States(f.body, handler) { StatedIsWellFormed(f.body, handler); }
      var payload := Payload(handler.payload.sessionId, handler.payload.responseText, None);
      if WellFormedBody(f.body) && Matches(VerdictOf(f.body, payload), handler) {
        StatesOnlyMatching(f.body, handler, payload);
      }
    }
    hide WroteAfter;
  }

  /** What it then decides: the verdict it states, asserted and in the handler's session, or a loud FAIL if it states none. */
  lemma OverrideSays(n: Node, f: StatusFile, start: int, handler: Outcome)
    requires ReadStatusOverride(n, f, start, handler).Some?
    ensures var o := ReadStatusOverride(n, f, start, handler).value;
      && o.isExplicit && o.attemptCount == None && o.payload.sessionId == handler.payload.sessionId
      && ((exists x :: States(f.body, x)) ==> States(f.body, o) && o.failureReason == None)
      && ((forall x :: !States(f.body, x)) ==>
            o.status == Fail && o.failureReason == Some(MalformedStatusFile(n.id)) &&
            o.preferredLabel == None && o.suggestedNextIds == None && o.contextUpdates == None)
  {
    hide States;
    hide WroteAfter;
    if x :| States(f.body, x) { StatedIsWellFormed(f.body, x); }
    if WellFormedBody(f.body) {
      WellFormedStates(f.body, Payload(handler.payload.sessionId, handler.payload.responseText, None));
    }
    hide WellFormedBody;
  }
}
