/** Starting a run and recording events into it (FlightRecorderService.cs). */
module Recording {
  import opened Results
  import opened Text
  import opened Trace
  import opened UsageImports
  import opened Policy
  import opened TaskContexts

  const INGEST_KEY := "flightrecorder.ingest.source"
  const MAXIMUM_COST_BASIS := 2000

  datatype StartRunRequest = StartRunRequest(
    request: string,
    entryPointAgent: string,
    requestingIdentity: string,
    recordingMode: RecordingMode)

  // [Required] refuses a text that is empty or blank.
  predicate ValidStart(r: StartRunRequest) {
    !IsBlank(r.request) && !IsBlank(r.entryPointAgent) && !IsBlank(r.requestingIdentity)
  }

  function StartedRun(env: Environment, r: StartRunRequest, id: Guid, now: Instant): TraceRun {
    var mode := r.recordingMode;
    TraceRun(id, Protect(env, mode, Some(Trim(r.request))).GetOr("[Content omitted]"),
             MetadataText(env, mode, Trim(r.entryPointAgent)), MetadataText(env, mode, Trim(r.requestingIdentity)),
             mode, now, None, [], Some([]))
  }

  datatype RecordEventRequest = RecordEventRequest(
    name: string,
    kind: EventKind,
    startedAt: Instant,
    endedAt: Option<Instant>,
    status: EventStatus,
    parentEventId: Option<Guid>,
    agentName: Option<string>,
    model: Option<string>,
    identity: Option<string>,
    details: Details,
    inputTokens: Option<int>,
    outputTokens: Option<int>,
    estimatedCost: Option<Decimal>,
    costBasis: Option<string>,
    input: Option<string>,
    output: Option<string>,
    attributes: Option<Attributes>,
    taskId: Option<Guid>,
    parentTaskId: Option<Guid>,
    traceId: Option<string>,
    spanId: Option<string>,
    reportedAiCredits: Option<Decimal>,
    estimatedAiCredits: Option<Decimal>)

  predicate IsCount(count: Option<int>) {
    count.Some? ==> 0 <= count.value <= MAXIMUM_COUNT
  }

  predicate BlankOrAbsent(text: Option<string>) {
    text.None? || IsBlank(text.value)
  }

  // The attribute checks and RecordEventRequest.Validate.
  predicate ValidRecord(r: RecordEventRequest) {
    && !IsBlank(r.name)
    && IsCount(r.inputTokens) && IsCount(r.outputTokens)
    && NotNegative(r.estimatedCost) && NotNegative(r.reportedAiCredits) && NotNegative(r.estimatedAiCredits)
    && (r.costBasis.Some? ==> |r.costBasis.value| <= MAXIMUM_COST_BASIS)
    && (r.endedAt.Some? ==> r.endedAt.value.utc >= r.startedAt.utc)
    && r.startedAt.utc >= 0 && (r.endedAt.Some? ==> r.endedAt.value.utc >= 0)
    && (r.estimatedCost.Some? ==>
          !BlankOrAbsent(r.model) && r.inputTokens.Some? && r.outputTokens.Some? && !BlankOrAbsent(r.costBasis))
    && (r.estimatedCost.None? ==> r.costBasis.None?)
    && (r.parentTaskId.Some? ==> r.taskId.Some?)
  }

  predicate RequestsMetering(r: RecordEventRequest) {
    r.inputTokens.Some? || r.outputTokens.Some? || r.estimatedCost.Some? || RequestsCacheCounters(r.attributes)
  }

  predicate IsBound(run: TraceRun) {
    run.usageImports.Some? && run.usageImports.value != []
  }

  // An ingested span that names its trace and span can be replayed.
  predicate IsReplayable(r: RecordEventRequest) {
    Lookup(r.attributes, INGEST_KEY) == Some("otlp") && r.traceId.Some? && r.spanId.Some?
  }

  // FirstOrDefault by trace and span; |events| when there is none.
  function FirstSpan(events: seq<FlightEvent>, traceId: Option<string>, spanId: Option<string>): (i: nat)
    ensures i <= |events|
    ensures i < |events| ==> events[i].traceId == traceId && events[i].spanId == spanId
    ensures forall k | 0 <= k < i :: !(events[k].traceId == traceId && events[k].spanId == spanId)
  {
    if events == [] then 0
    else if events[0].traceId == traceId && events[0].spanId == spanId then 0
    else
      var rest := FirstSpan(events[1..], traceId, spanId);
      assert forall k | 1 <= k < 1 + rest :: events[k] == events[1..][k - 1];
      1 + rest
  }

  function RecordedEvent(env: Environment, run: TraceRun, r: RecordEventRequest, id: Guid,
                         context: TaskContext): FlightEvent {
    var mode := run.recordingMode;
    var taskId := r.taskId.OrElse(context.CurrentTaskId());
    var parentTaskId := r.parentTaskId.OrElse(if taskId.Some? then context.ParentOf(taskId.value) else None);
    FlightEvent(id, run.id, r.kind, MetadataText(env, mode, Trim(r.name)), r.startedAt, r.endedAt, r.status,
                Metadata(env, mode, r.agentName), Metadata(env, mode, r.model), Metadata(env, mode, r.identity),
                ProtectDetails(env, mode, r.details), r.inputTokens, r.outputTokens, r.estimatedCost,
                Metadata(env, mode, r.costBasis), Protect(env, mode, r.input), Protect(env, mode, r.output),
                if r.attributes.Some? then Some(ProtectedAttributes(env, mode, r.attributes.value)) else None,
                r.parentEventId, Some(1), None, taskId, parentTaskId,
                Metadata(env, mode, r.traceId), Metadata(env, mode, r.spanId), r.reportedAiCredits,
                    r.estimatedAiCredits)
  }

  // How far a batch has got: the events of the run, the events returned so far
  // and the number of identifiers taken.
  datatype Progress = Progress(events: seq<FlightEvent>, recorded: seq<FlightEvent>, minted: nat)

  function RecordOne(env: Environment, run: TraceRun, p: Progress, r: RecordEventRequest): Result<Progress,
                     RecorderError> {
    var found := FirstSpan(p.events, r.traceId, r.spanId);
    if !ValidRecord(r) then Err(ValidationError)
    else if IsReplayable(r) && found < |p.events| then
      Ok(Progress(p.events, p.recorded + [p.events[found]], p.minted))
    else if IsBound(run) && RequestsMetering(r) then Err(ConflictError)
    else if r.parentEventId.Some? && !HasEvent(p.events, r.parentEventId.value) then Err(ArgumentError)
    else
      var evt := RecordedEvent(env, run, r, env.newGuid(p.minted), ContextOf(p.events));
      Ok(Progress(p.events + [evt], p.recorded + [evt], p.minted + 1))
  }

  // A whole batch against the run as it stands; the first refusal refuses it all.
  function RecordAll(env: Environment, run: TraceRun, minted: nat, requests: seq<RecordEventRequest>): Result<Progress,
                     RecorderError> {
    if requests == [] then Ok(Progress(run.events, [], minted))
    else match RecordAll(env, run, minted, requests[..|requests| - 1])
      case Err(e) => Err(e)
      case Ok(p) => RecordOne(env, run, p, requests[|requests| - 1])
  }

  lemma {:induction false} RefusalIsFinal(env: Environment, run: TraceRun, minted: nat,
                                          requests: seq<RecordEventRequest>, n: nat)
    requires n <= |requests|
    requires RecordAll(env, run, minted, requests[..n]).Err?
    ensures RecordAll(env, run, minted, requests) == RecordAll(env, run, minted, requests[..n])
    decreases |requests| - n
  {
    if n == |requests| {
      assert requests[..n] == requests;
    } else {
      assert requests[..n + 1][..n] == requests[..n];
      RefusalIsFinal(env, run, minted, requests, n + 1);
    }
  }

  // The callback RecordEvents hands to the store, event by event.
  method RecordInto(env: Environment, run: TraceRun, minted: nat, requests: seq<RecordEventRequest>)
    returns (outcome: Result<Progress, RecorderError>)
    ensures outcome == RecordAll(env, run, minted, requests)
  {
    var events := run.events;
    var recorded: seq<FlightEvent> := [];
    var next := minted;
    for n := 0 to |requests|
      invariant RecordAll(env, run, minted, requests[..n]) == Ok(Progress(events, recorded, next))
    {
      assert requests[..n + 1][..n] == requests[..n];
      var request := requests[n];
      if !ValidRecord(request) {
        RefusalIsFinal(env, run, minted, requests, n + 1);
        return Err(ValidationError);
      }
      var existing := FirstSpan(events, request.traceId, request.spanId);
      if IsReplayable(request) && existing < |events| {
        recorded := recorded + [events[existing]];
        continue;
      }
      if IsBound(run) && RequestsMetering(request) {
        RefusalIsFinal(env, run, minted, requests, n + 1);
        return Err(ConflictError);
      }
      if request.parentEventId.Some? && !HasEvent(events, request.parentEventId.value) {
        RefusalIsFinal(env, run, minted, requests, n + 1);
        return Err(ArgumentError);
      }
      var attribution := ReplayTasks(events);
      var evt := RecordedEvent(env, run, request, env.newGuid(next), attribution);
      recorded := recorded + [evt];
      events := events + [evt];
      next := next + 1;
    }
    assert requests[..|requests|] == requests;
    outcome := Ok(Progress(events, recorded, next));
  }
}
