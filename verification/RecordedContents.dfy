/**
 What recording leaves in a run, said over the request and the event: which texts are kept as
 sent, which are redacted and which are left out, in each recording mode; when a request is
 recorded, answered with an earlier event, or refused; and what starting a run keeps.
 */
module RecordedContents {
  import opened Results
  import opened Text
  import opened Trace
  import opened Policy
  import opened TaskContexts
  import opened Recording
  import opened Importing
  import opened Stores
  import opened Service

  // ----- What each mode keeps of a text -----

  ghost predicate IsKeptText(env: Environment, mode: RecordingMode, sent: string, kept: string) {
    (mode == Full ==> kept == sent) && (mode != Full ==> kept == env.redact(sent))
  }

  // Descriptive texts are kept in every mode, redacted unless the run is recorded in full.
  ghost predicate KeepsMetadata(env: Environment, mode: RecordingMode, sent: Option<string>, kept: Option<string>) {
    (kept.Some? <==> sent.Some?) && (sent.Some? ==> IsKeptText(env, mode, sent.value, kept.value))
  }

  // Contents are as sent in a full run, redacted in a redacted run, and left out otherwise.
  ghost predicate KeepsContent(env: Environment, mode: RecordingMode, sent: Option<string>, kept: Option<string>) {
    match mode
    case Full => kept == sent
    case Redacted => (kept.Some? <==> sent.Some?) && (sent.Some? ==> kept.value == env.redact(sent.value))
    case MetadataOnly => kept.None?
  }

  // The attributes a run without contents keeps.
  predicate IsKeptWithoutContents(key: string) {
    key in {"http.request.method", "http.response.status_code", "gen_ai.operation.name", "gen_ai.request.model",
            "gen_ai.agent.name", "gen_ai.tool.name", "gen_ai.policy.decision", "gen_ai.data.classification",
            "sdk.usageEvent", "sdk.cacheReadCount", "sdk.cacheWriteCount", "sdk.cacheDetailsReported",
            "sdk.durationMs", "sdk.timestampMeaning", "sdk.invalidUsageFields", "flightrecorder.task.lifecycle",
            "flightrecorder.task.source", "flightrecorder.attribution.method",
            "flightrecorder.attribution.confidence", "flightrecorder.ingest.source"}
  }

  // An entry of the request is kept under this name with this value.
  ghost predicate KeepsEntry(env: Environment, mode: RecordingMode, entry: (string, string), key: string,
                             value: string) {
    && (mode == MetadataOnly ==> IsKeptWithoutContents(entry.0))
    && IsKeptText(env, mode, entry.0, key)
    && (if mode != Full && env.secretKey(entry.0) then value == "[REDACTED]" else IsKeptText(env, mode, entry.1, value))
  }

  // The entry may be kept under this name.
  ghost predicate MayKeep(env: Environment, mode: RecordingMode, entry: (string, string), key: string) {
    (mode == MetadataOnly ==> IsKeptWithoutContents(entry.0)) && IsKeptText(env, mode, entry.0, key)
  }

  // Entry i is the last that may be kept under this name, and it is.
  ghost predicate LastEntryKept(env: Environment, mode: RecordingMode, sent: Attributes, kept: map<string, string>,
                                key: string, i: int) {
    && 0 <= i < |sent| && key in kept && KeepsEntry(env, mode, sent[i], key, kept[key])
    && forall j | i < j < |sent| :: !MayKeep(env, mode, sent[j], key)
  }

  // Every name kept is that of an entry, the last of that name; and every entry that may be
  // kept has its name kept.
  ghost predicate KeepsAttributes(env: Environment, mode: RecordingMode, sent: Attributes, kept: map<string, string>) {
    && (forall key | key in kept :: exists i :: LastEntryKept(env, mode, sent, kept, key, i))
    && (forall i, key | 0 <= i < |sent| && MayKeep(env, mode, sent[i], key) :: key in kept)
  }

  lemma {:induction false} ProtectedAreKept(env: Environment, mode: RecordingMode, sent: Attributes)
    ensures KeepsAttributes(env, mode, sent, ProtectedAttributes(env, mode, sent))
  {
    if sent != [] {
      var init, last := sent[..|sent| - 1], sent[|sent| - 1];
      ProtectedAreKept(env, mode, init);
      var before, kept := ProtectedAttributes(env, mode, init), ProtectedAttributes(env, mode, sent);
      forall key | key in kept ensures exists i :: LastEntryKept(env, mode, sent, kept, key, i) {
        KeptOneMore(env, mode, sent, before, kept, key);
      }
      forall i, key | 0 <= i < |sent| && MayKeep(env, mode, sent[i], key) ensures key in kept {
        if i < |init| { assert sent[i] == init[i]; }
      }
    }
  }

  lemma ProtectedOneMore(env: Environment, mode: RecordingMode, sent: Attributes, key: string)
    requires sent != []
    ensures var before, kept :=
            ProtectedAttributes(env, mode, sent[..|sent| - 1]), ProtectedAttributes(env, mode, sent);
            var last := sent[|sent| - 1];
            if MayKeep(env, mode, last, key) then key in kept && KeepsEntry(env, mode, last, key, kept[key])
            else (key in kept <==> key in before) && (key in kept ==> kept[key] == before[key])
  {
  }

  lemma LastStaysLast(env: Environment, mode: RecordingMode, sent: Attributes, before: map<string, string>,
                      kept: map<string, string>, key: string, i: int)
    requires sent != [] && LastEntryKept(env, mode, sent[..|sent| - 1], before, key, i)
    requires key in kept && kept[key] == before[key] && !MayKeep(env, mode, sent[|sent| - 1], key)
    ensures LastEntryKept(env, mode, sent, kept, key, i)
  {
    var init, n := sent[..|sent| - 1], |sent| - 1;
    assert sent[i] == init[i];
    forall j | i < j < |sent| ensures !MayKeep(env, mode, sent[j], key) {
      if j < n { assert sent[j] == init[j]; }
    }
  }

  lemma KeptOneMore(env: Environment, mode: RecordingMode, sent: Attributes, before: map<string, string>,
                    kept: map<string, string>, key: string)
    requires sent != [] && before == ProtectedAttributes(env, mode, sent[..|sent| - 1])
    requires kept == ProtectedAttributes(env, mode, sent) && key in kept
    requires KeepsAttributes(env, mode, sent[..|sent| - 1], before)
    ensures exists i :: LastEntryKept(env, mode, sent, kept, key, i)
  {
    ProtectedOneMore(env, mode, sent, key);
    if MayKeep(env, mode, sent[|sent| - 1], key) {
      assert LastEntryKept(env, mode, sent, kept, key, |sent| - 1);
    } else {
      var i :| LastEntryKept(env, mode, sent[..|sent| - 1], before, key, i);
      LastStaysLast(env, mode, sent, before, kept, key, i);
    }
  }

  // ----- Recorded events -----

  ghost predicate KeepsDetails(env: Environment, mode: RecordingMode, sent: Details, kept: Details) {
    && KeepsContent(env, mode, sent.objective, kept.objective)
    && KeepsMetadata(env, mode, sent.agentVersion, kept.agentVersion)
    && KeepsMetadata(env, mode, sent.toolServer, kept.toolServer)
    && KeepsMetadata(env, mode, sent.requestedScope, kept.requestedScope)
    && KeepsMetadata(env, mode, sent.grantedScope, kept.grantedScope)
    && KeepsMetadata(env, mode, sent.policyName, kept.policyName)
    && KeepsMetadata(env, mode, sent.policyReason, kept.policyReason)
    && KeepsMetadata(env, mode, sent.chatSessionId, kept.chatSessionId)
    && KeepsMetadata(env, mode, sent.chatTurnId, kept.chatTurnId)
    && KeepsMetadata(env, mode, sent.subagentSessionId, kept.subagentSessionId)
  }

  ghost predicate KeepsTexts(env: Environment, mode: RecordingMode, r: RecordEventRequest, e: FlightEvent) {
    && IsKeptText(env, mode, Trim(r.name), e.name)
    && KeepsMetadata(env, mode, r.agentName, e.agentName) && KeepsMetadata(env, mode, r.model, e.model)
    && KeepsMetadata(env, mode, r.identity, e.identity) && KeepsMetadata(env, mode, r.costBasis, e.costBasis)
    && KeepsMetadata(env, mode, r.traceId, e.traceId) && KeepsMetadata(env, mode, r.spanId, e.spanId)
    && KeepsContent(env, mode, r.input, e.input) && KeepsContent(env, mode, r.output, e.output)
    && KeepsDetails(env, mode, r.details, e.details)
    && (e.attributes.Some? <==> r.attributes.Some?)
    && (r.attributes.Some? ==> KeepsAttributes(env, mode, r.attributes.value, e.attributes.value))
  }

  // The event is what recording the request makes in this run.
  ghost predicate Records(env: Environment, run: TraceRun, r: RecordEventRequest, e: FlightEvent) {
    && KeepsTexts(env, run.recordingMode, r, e)
    && e.runId == run.id && e.kind == r.kind && e.status == r.status && e.parentEventId == r.parentEventId
    && e.startedAt == r.startedAt && e.endedAt == r.endedAt
    && e.inputTokens == r.inputTokens && e.outputTokens == r.outputTokens && e.estimatedCost == r.estimatedCost
    && e.reportedAiCredits == r.reportedAiCredits && e.estimatedAiCredits == r.estimatedAiCredits
    && e.usageSchemaVersion == Some(1) && e.imported.None?
    && (r.taskId.Some? ==> e.taskId == r.taskId) && (r.parentTaskId.Some? ==> e.parentTaskId == r.parentTaskId)
  }

  lemma MetadataIsKept(env: Environment, mode: RecordingMode, sent: Option<string>)
    ensures KeepsMetadata(env, mode, sent, Metadata(env, mode, sent))
  {
  }

  lemma ContentIsKept(env: Environment, mode: RecordingMode, sent: Option<string>)
    ensures KeepsContent(env, mode, sent, Protect(env, mode, sent))
  {
  }

  lemma DetailsAreKept(env: Environment, mode: RecordingMode, sent: Details)
    ensures KeepsDetails(env, mode, sent, ProtectDetails(env, mode, sent))
  {
    ContentIsKept(env, mode, sent.objective);
    MetadataIsKept(env, mode, sent.agentVersion);
    MetadataIsKept(env, mode, sent.toolServer);
    MetadataIsKept(env, mode, sent.requestedScope);
    MetadataIsKept(env, mode, sent.grantedScope);
    MetadataIsKept(env, mode, sent.policyName);
    MetadataIsKept(env, mode, sent.policyReason);
    MetadataIsKept(env, mode, sent.chatSessionId);
    MetadataIsKept(env, mode, sent.chatTurnId);
    MetadataIsKept(env, mode, sent.subagentSessionId);
  }

  lemma TextsAreKept(env: Environment, run: TraceRun, r: RecordEventRequest, e: FlightEvent, id: Guid,
                     context: TaskContext)
    requires e == RecordedEvent(env, run, r, id, context)
    ensures KeepsTexts(env, run.recordingMode, r, e)
  {
    var mode := run.recordingMode;
    MetadataIsKept(env, mode, r.agentName);
    MetadataIsKept(env, mode, r.model);
    MetadataIsKept(env, mode, r.identity);
    MetadataIsKept(env, mode, r.costBasis);
    MetadataIsKept(env, mode, r.traceId);
    MetadataIsKept(env, mode, r.spanId);
    ContentIsKept(env, mode, r.input);
    ContentIsKept(env, mode, r.output);
    DetailsAreKept(env, mode, r.details);
    if r.attributes.Some? { ProtectedAreKept(env, mode, r.attributes.value); }
  }

  lemma RecordedEventRecords(env: Environment, run: TraceRun, r: RecordEventRequest, id: Guid, context: TaskContext)
    ensures Records(env, run, r, RecordedEvent(env, run, r, id, context))
    ensures RecordedEvent(env, run, r, id, context).id == id
  {
    TextsAreKept(env, run, r, RecordedEvent(env, run, r, id, context), id, context);
  }

  // The metering a request reports.
  ghost predicate Meters(r: RecordEventRequest) {
    || r.inputTokens.Some? || r.outputTokens.Some? || r.estimatedCost.Some?
    || (r.attributes.Some? && exists i | 0 <= i < |r.attributes.value| ::
          r.attributes.value[i].0 == "sdk.cacheReadCount" || r.attributes.value[i].0 == "sdk.cacheWriteCount")
  }

  // The first event of the span of an ingested request.
  ghost predicate IsFirstOfSpan(events: seq<FlightEvent>, r: RecordEventRequest, i: int) {
    && 0 <= i < |events| && events[i].traceId == r.traceId && events[i].spanId == r.spanId
    && forall k | 0 <= k < i :: events[k].traceId != r.traceId || events[k].spanId != r.spanId
  }

  ghost predicate IsIngested(r: RecordEventRequest) {
    r.traceId.Some? && r.spanId.Some? && Policy.Lookup(r.attributes, "flightrecorder.ingest.source") == Some("otlp")
  }

  ghost predicate IsAnswered(events: seq<FlightEvent>, r: RecordEventRequest) {
    IsIngested(r) && exists i :: IsFirstOfSpan(events, r, i)
  }

  ghost predicate KnowsParent(events: seq<FlightEvent>, r: RecordEventRequest) {
    r.parentEventId.Some? ==> exists i | 0 <= i < |events| :: events[i].id == r.parentEventId.value
  }

  predicate IsNatural(count: Option<int>) {
    count.None? || count.value >= 0
  }

  predicate HasText(text: Option<string>) {
    text.Some? && !IsBlank(text.value)
  }

  // A request names something, its times are from 1970 on and in order, its counters are
  // counts, its credits and cost are not negative; a cost comes with a model, both token
  // counters and a basis of at most 2000 characters, and a parent task with a task.
  predicate FollowsRules(r: RecordEventRequest) {
    && HasText(Some(r.name)) && 0 <= r.startedAt.utc && (r.endedAt.None? || r.startedAt.utc <= r.endedAt.value.utc)
    && (r.inputTokens.None? || 0 <= r.inputTokens.value <= 2_147_483_647)
    && (r.outputTokens.None? || 0 <= r.outputTokens.value <= 2_147_483_647)
    && IsNatural(r.estimatedCost) && IsNatural(r.reportedAiCredits) && IsNatural(r.estimatedAiCredits)
    && (if r.estimatedCost.Some?
        then HasText(r.model) && r.inputTokens.Some? && r.outputTokens.Some? && HasText(r.costBasis)
             && |r.costBasis.value| <= 2000
        else r.costBasis.None?)
    && (r.parentTaskId.None? || r.taskId.Some?)
  }

  lemma RulesAreExact(r: RecordEventRequest)
    ensures ValidRecord(r) <==> FollowsRules(r)
  {
  }

  // Why a request is refused, if it is: the first rule it breaks.
  ghost function RefusedWith(run: TraceRun, events: seq<FlightEvent>, r: RecordEventRequest): Option<RecorderError> {
    if !FollowsRules(r) then Some(ValidationError)
    else if IsAnswered(events, r) then None
    else if run.usageImports.Some? && run.usageImports.value != [] && Meters(r) then Some(ConflictError)
    else if !KnowsParent(events, r) then Some(ArgumentError)
    else None
  }

  lemma SpanIsFirst(events: seq<FlightEvent>, r: RecordEventRequest)
    ensures var i := FirstSpan(events, r.traceId, r.spanId);
            && (i < |events| ==> IsFirstOfSpan(events, r, i))
            && ((exists k :: IsFirstOfSpan(events, r, k)) ==> i < |events|)
  {
    var i := FirstSpan(events, r.traceId, r.spanId);
    if k :| IsFirstOfSpan(events, r, k) {
      assert i <= k;
    }
  }

  // The progress is that of an event that records the request, behind the others.
  ghost predicate RecordsNew(env: Environment, run: TraceRun, p: Progress, r: RecordEventRequest, after: Progress) {
    exists e :: Records(env, run, r, e) && e.id == env.newGuid(p.minted)
      && after == Progress(p.events + [e], p.recorded + [e], p.minted + 1)
  }

  // The progress is that of an answer with the first event of the request's span.
  ghost predicate AnswersWithFirst(p: Progress, r: RecordEventRequest, after: Progress) {
    exists i :: IsFirstOfSpan(p.events, r, i) && after == Progress(p.events, p.recorded + [p.events[i]], p.minted)
  }

  lemma NewIsRecorded(env: Environment, run: TraceRun, p: Progress, r: RecordEventRequest)
    ensures var e := RecordedEvent(env, run, r, env.newGuid(p.minted), ContextOf(p.events));
            RecordsNew(env, run, p, r, Progress(p.events + [e], p.recorded + [e], p.minted + 1))
  {
    RecordedEventRecords(env, run, r, env.newGuid(p.minted), ContextOf(p.events));
  }

  lemma MeteringIsSeen(r: RecordEventRequest)
    ensures RequestsMetering(r) <==> Meters(r)
  {
  }

  // One request: refused by the first rule it breaks, answered with the first event of its
  // span, or recorded behind the events as a new event.
  lemma RequestIsRecordedExactly(env: Environment, run: TraceRun, p: Progress, r: RecordEventRequest)
    ensures var outcome, refused := RecordOne(env, run, p, r), RefusedWith(run, p.events, r);
            && (outcome.Err? <==> refused.Some?) && (outcome.Err? ==> outcome.error == refused.value)
            && (outcome.Ok? ==>
                  if IsAnswered(p.events, r) then AnswersWithFirst(p, r, outcome.value)
                  else RecordsNew(env, run, p, r, outcome.value))
  {
    RulesAreExact(r);
    SpanIsFirst(p.events, r);
    MeteringIsSeen(r);
    NewIsRecorded(env, run, p, r);
  }

  // What a request of an accepted batch is answered with.
  ghost predicate Answers(env: Environment, run: TraceRun, r: RecordEventRequest, e: FlightEvent) {
    (IsIngested(r) && e.traceId == r.traceId && e.spanId == r.spanId) || Records(env, run, r, e)
  }

  ghost predicate AllAnswered(env: Environment, run: TraceRun, requests: seq<RecordEventRequest>,
                              recorded: seq<FlightEvent>) {
    |recorded| == |requests| && forall k | 0 <= k < |requests| :: Answers(env, run, requests[k], recorded[k])
  }

  // Every event of a run after a batch was there before or records a request.
  ghost predicate OldOrRecorded(env: Environment, run: TraceRun, requests: seq<RecordEventRequest>,
                                events: seq<FlightEvent>) {
    && run.events <= events
    && forall i | |run.events| <= i < |events| :: RecordsSome(env, run, requests, events[i])
  }

  ghost predicate RecordsSome(env: Environment, run: TraceRun, requests: seq<RecordEventRequest>, e: FlightEvent) {
    exists k | 0 <= k < |requests| :: Records(env, run, requests[k], e)
  }

  lemma RecordsSomeOneMore(env: Environment, run: TraceRun, init: seq<RecordEventRequest>, last: RecordEventRequest,
                           e: FlightEvent)
    ensures RecordsSome(env, run, init, e) || Records(env, run, last, e) ==> RecordsSome(env, run, init + [last], e)
  {
    var requests := init + [last];
    assert requests[|init|] == last;
    if RecordsSome(env, run, init, e) {
      var k :| 0 <= k < |init| && Records(env, run, init[k], e);
      assert requests[k] == init[k];
    }
  }

  lemma AnswerOneMore(env: Environment, run: TraceRun, init: seq<RecordEventRequest>, last: RecordEventRequest,
                      before: Progress, after: Progress)
    requires RecordOne(env, run, before, last) == Ok(after)
    requires AllAnswered(env, run, init, before.recorded) && OldOrRecorded(env, run, init, before.events)
    ensures AllAnswered(env, run, init + [last], after.recorded) && OldOrRecorded(env, run, init + [last], after.events)
  {
    RequestIsRecordedExactly(env, run, before, last);
    AnsweredOneMore(env, run, init, last, before.recorded, after.recorded);
    forall i | |run.events| <= i < |after.events| ensures RecordsSome(env, run, init + [last], after.events[i]) {
      RecordsSomeOneMore(env, run, init, last, after.events[i]);
      if i < |before.events| { assert RecordsSome(env, run, init, before.events[i]); }
    }
  }

  lemma AnsweredOneMore(env: Environment, run: TraceRun, init: seq<RecordEventRequest>, last: RecordEventRequest,
                        before: seq<FlightEvent>, after: seq<FlightEvent>)
    requires AllAnswered(env, run, init, before) && |after| == |before| + 1 && after[..|before|] == before
    requires Answers(env, run, last, after[|before|])
    ensures AllAnswered(env, run, init + [last], after)
  {
    forall k | 0 <= k < |init| ensures Answers(env, run, init[k], after[k]) {
      assert after[k] == before[k];
    }
  }

  // An accepted batch is answered request by request, and adds nothing but events that
  // record its requests in the way of the run's mode.
  lemma {:induction false} BatchesAreRecorded(env: Environment, run: TraceRun, minted: nat,
                                              requests: seq<RecordEventRequest>,
                                              p: Progress)
    requires RecordAll(env, run, minted, requests) == Ok(p)
    ensures AllAnswered(env, run, requests, p.recorded) && OldOrRecorded(env, run, requests, p.events)
    decreases |requests|
  {
    if requests != [] {
      var init, last := requests[..|requests| - 1], requests[|requests| - 1];
      assert requests == init + [last];
      var before := RecordAll(env, run, minted, init).value;
      BatchesAreRecorded(env, run, minted, init, before);
      AnswerOneMore(env, run, init, last, before, p);
    }
  }

  // A batch is refused with the error of the first request that breaks a rule, against the run
  // as the requests before it left it.
  lemma BatchIsRefusedAt(env: Environment, run: TraceRun, minted: nat, requests: seq<RecordEventRequest>, n: nat,
                         before: Progress)
    requires n < |requests| && RecordAll(env, run, minted, requests[..n]) == Ok(before)
    requires RefusedWith(run, before.events, requests[n]).Some?
    ensures RecordAll(env, run, minted, requests) == Err(RefusedWith(run, before.events, requests[n]).value)
  {
    assert requests[..n + 1][..n] == requests[..n];
    RequestIsRecordedExactly(env, run, before, requests[n]);
    RefusalIsFinal(env, run, minted, requests, n + 1);
  }

  // A batch that is not refused is stored behind the run's events and answered; a refused
  // one changes nothing.
  lemma BatchIsStored(env: Environment, limit: nat, s: MemoryService, op: Operation)
    requires Trusted(env) && Invariant(env, limit, s) && op.RecordEvents? && op.runId in s.runs
    ensures var run := s.runs[op.runId];
            match RecordAll(env, run, s.minted, op.requests)
            case Err(e) => MemoryStep(env, limit, s, op) == (s, Rejected(e))
            case Ok(p) =>
              MemoryStep(env, limit, s, op) ==
              (MemoryService(s.runs[op.runId := run.(events := p.events)], p.minted), Recorded(p.recorded))
  {
    var run := s.runs[op.runId];
    assert RunOk(env, s.minted, s.runs, op.runId);
    match RecordAll(env, run, s.minted, op.requests)
    case Err(_) =>
    case Ok(p) =>
      BatchesAreRecorded(env, run, s.minted, op.requests, p);
      SameRunIsKept(s.runs, op.runId, p.events);
      RewritingStores(s.runs, limit, op.runId, run.(events := p.events));
  }

  lemma SameRunIsKept(runs: Runs, id: Guid, events: seq<FlightEvent>)
    requires id in runs && runs[id].events <= events
    ensures |events| == |runs[id].events| ==> runs[id := runs[id].(events := events)] == runs
  {
    assert |events| == |runs[id].events| ==> events == runs[id].events;
  }

  // ----- Starting -----

  // A started run says what the request said, in the way of its mode.
  ghost predicate Starts(env: Environment, r: StartRunRequest, id: Guid, now: Instant, run: TraceRun) {
    && run.id == id && run.recordingMode == r.recordingMode && run.startedAt == now && run.endedAt.None?
    && run.events == [] && run.usageImports == Some([])
    && IsKeptText(env, r.recordingMode, Trim(r.entryPointAgent), run.entryPointAgent)
    && IsKeptText(env, r.recordingMode, Trim(r.requestingIdentity), run.requestingIdentity)
    && (if r.recordingMode == MetadataOnly then run.request == "[Content omitted]"
        else IsKeptText(env, r.recordingMode, Trim(r.request), run.request))
  }

  // Starting stores a run that says what the request said, under a fresh identifier, beside
  // the others as they were; it is refused exactly when one of the three texts is blank.
  lemma StartIsStored(env: Environment, limit: nat, s: MemoryService, op: Operation)
    requires Trusted(env) && Invariant(env, limit, s) && op.StartRun?
    ensures if HasText(Some(op.start.request)) && HasText(Some(op.start.entryPointAgent))
               && HasText(Some(op.start.requestingIdentity))
            then
            var (after, reply) := MemoryStep(env, limit, s, op);
            && reply.RunStarted? && Starts(env, op.start, env.newGuid(s.minted), op.startedAt, reply.run)
            && reply.run.id !in s.runs && after == MemoryService(s.runs[reply.run.id := reply.run], s.minted + 1)
            else MemoryStep(env, limit, s, op) == (s, Rejected(ValidationError))
  {
    var run := StartedRun(env, op.start, env.newGuid(s.minted), op.startedAt);
    FreshIsUnknown(env, limit, s);
    InvariantIsKeyed(env, limit, s);
    UnfinishedStaysWithinLimit(s.runs, limit, run);
    NothingToPrune(s.runs[run.id := run], limit);
  }

  // ----- Contents over whole histories -----

  ghost function Redaction(env: Environment, text: string): string {
    env.redact(text)
  }

  ghost predicate IsRedaction(env: Environment, text: string) {
    exists sent :: Redaction(env, sent) == text
  }

  // A content is left out of a metadata-only run, and what a redacted run holds of one is a
  // redaction.
  ghost predicate ContentOk(env: Environment, mode: RecordingMode, content: Option<string>) {
    (mode == MetadataOnly ==> content.None?) && (mode == Redacted && content.Some? ==> IsRedaction(env, content.value))
  }

  ghost predicate EventContentOk(env: Environment, mode: RecordingMode, e: FlightEvent) {
    ContentOk(env, mode, e.input) && ContentOk(env, mode, e.output) && ContentOk(env, mode, e.details.objective)
  }

  ghost predicate RunContentOk(env: Environment, run: TraceRun) {
    && (forall i | 0 <= i < |run.events| :: EventContentOk(env, run.recordingMode, run.events[i]))
    && (run.recordingMode == MetadataOnly ==> run.request == "[Content omitted]")
    && (run.recordingMode == Redacted ==> IsRedaction(env, run.request))
  }

  lemma KeptContentIsOk(env: Environment, mode: RecordingMode, sent: Option<string>, kept: Option<string>)
    requires KeepsContent(env, mode, sent, kept)
    ensures ContentOk(env, mode, kept)
  {
    if mode == Redacted && kept.Some? { assert Redaction(env, sent.value) == kept.value; }
  }

  lemma RecordedContentIsOk(env: Environment, run: TraceRun, r: RecordEventRequest, e: FlightEvent)
    requires Records(env, run, r, e)
    ensures EventContentOk(env, run.recordingMode, e)
  {
    KeptContentIsOk(env, run.recordingMode, r.input, e.input);
    KeptContentIsOk(env, run.recordingMode, r.output, e.output);
    KeptContentIsOk(env, run.recordingMode, r.details.objective, e.details.objective);
  }

  lemma StartedContentIsOk(env: Environment, r: StartRunRequest, id: Guid, now: Instant)
    ensures Starts(env, r, id, now, StartedRun(env, r, id, now))
    ensures RunContentOk(env, StartedRun(env, r, id, now))
  {
    if r.recordingMode == Redacted { assert Redaction(env, Trim(r.request)) == StartedRun(env, r, id, now).request; }
  }

  lemma RecordingKeepsContentOk(env: Environment, run: TraceRun, minted: nat, requests: seq<RecordEventRequest>,
                                p: Progress)
    requires RunContentOk(env, run) && RecordAll(env, run, minted, requests) == Ok(p)
    ensures RunContentOk(env, run.(events := p.events))
  {
    BatchesAreRecorded(env, run, minted, requests, p);
    forall i | 0 <= i < |p.events| ensures EventContentOk(env, run.recordingMode, p.events[i]) {
      if i < |run.events| {
        assert p.events[i] == run.events[i];
      } else {
        assert RecordsSome(env, run, requests, p.events[i]);
        var k :| 0 <= k < |requests| && Records(env, run, requests[k], p.events[i]);
        RecordedContentIsOk(env, run, requests[k], p.events[i]);
      }
    }
  }

  lemma {:induction false} AdditionsAreContentOk(env: Environment, run: TraceRun, import_: Import, minted: nat, n: nat)
    requires n <= |import_.observations|
    ensures forall e | e in Additions(env, run, import_, minted, n) :: EventContentOk(env, run.recordingMode, e)
  {
    if n > 0 { AdditionsAreContentOk(env, run, import_, minted, n - 1); }
  }

  lemma ImportingKeepsContentOk(env: Environment, run: TraceRun, minted: nat, import_: Import, outcome: ImportOutcome)
    requires RunContentOk(env, run) && outcome == ImportInto(env, run, minted, import_)
    ensures outcome.Replaced? ==> RunContentOk(env, outcome.run)
  {
    if outcome.Replaced? {
      var added, events := Additions(env, run, import_, minted, |import_.observations|), outcome.run.events;
      AdditionsAreContentOk(env, run, import_, minted, |import_.observations|);
      forall i | 0 <= i < |events| ensures EventContentOk(env, run.recordingMode, events[i]) {
        if i < |run.events| {
          assert EventContentOk(env, run.recordingMode, run.events[i]);
          assert events[i] == Corrected(env, run, import_, run.events[i]);
        } else {
          assert events[i] in added;
        }
      }
    }
  }

  lemma DecideKeepsContentOk(env: Environment, minted: nat, op: Operation, run: TraceRun, verdict: Verdict)
    requires !op.StartRun? && verdict == Decide(env, minted, op, run) && RunContentOk(env, run)
    ensures verdict.change.Replace? ==> RunContentOk(env, verdict.change.run)
  {
    match op
    case RecordEvents(_, requests) =>
      var recorded := RecordAll(env, run, minted, requests);
      if recorded.Ok? { RecordingKeepsContentOk(env, run, minted, requests, recorded.value); }
    case ImportUsage(_, sourceId, request, now) =>
      var import_ := Prepared(env, sourceId, request, now);
      ImportingKeepsContentOk(env, run, minted, import_, ImportInto(env, run, minted, import_));
    case CompleteRun(_, _) =>
  }

  // After any history, no metadata-only run holds content, and every content a redacted run
  // holds, its own request included, is a result of redaction.
  lemma {:induction false} ContentsAreProtected(env: Environment, limit: nat, history: seq<Operation>, id: Guid)
    requires Trusted(env) && AllTimely(history) && id in MemoryAfter(env, limit, history).runs
    ensures RunContentOk(env, MemoryAfter(env, limit, history).runs[id])
    decreases |history|
  {
    if history != [] {
      var earlier, op := history[..|history| - 1], history[|history| - 1];
      var s := MemoryAfter(env, limit, earlier);
      HistoryKeepsInvariant(env, limit, earlier);
      StepRun(env, limit, s, op, id, MemoryAfter(env, limit, history));
      if id in s.runs {
        ContentsAreProtected(env, limit, earlier, id);
        if Admissible(op) && Rewrites(env, s, op, id) {
          DecideKeepsContentOk(env, s.minted, op, s.runs[id], Decide(env, s.minted, op, s.runs[id]));
        }
      } else {
        StartedContentIsOk(env, op.start, env.newGuid(s.minted), op.startedAt);
      }
    }
  }
}
