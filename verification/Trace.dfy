/** Runs and their events (Models/FlightEvent.cs), with the totals a run reports. */
module Trace {
  import opened Results
  import opened Totals

  // A GUID, numbered so that 0 is Guid.Empty and numbers order like the "D" text.
  type Guid = nat

  // A decimal, counted exactly in its finest unit of 1e-28.
  type Decimal = int

  // A DateTimeOffset: UTC ticks since the Unix epoch, and the offset it was written with.
  datatype Instant = Instant(utc: int, offset: int) {
    function ToUniversalTime(): Instant {
      Instant(utc, 0)
    }
  }

  // The last tick of the year 9999, after which there is no DateTimeOffset.
  const LAST_TICK := 2_534_023_007_999_999_999

  // From the Unix epoch on, as far as a DateTimeOffset goes.
  predicate SinceEpoch(t: Instant) {
    0 <= t.utc <= LAST_TICK
  }

  datatype EventKind = RunEvent | AgentSpan | ModelCall | ToolCall | PolicyDecision

  datatype EventStatus = Started | Succeeded | Failed | Blocked | RequiresApproval

  datatype RecordingMode = MetadataOnly | Redacted | Full

  datatype ImportedUsage = ImportedUsage(
    sourceId: string,
    observationId: string,
    sourceKind: string,
    format: string,
    quality: string,
    estimatedInputTokens: Option<int>,
    estimatedOutputTokens: Option<int>,
    cacheReadTokens: Option<int>,
    cacheWriteTokens: Option<int>,
    nanoAiu: Option<int>,
    timestampMeaning: string)

  datatype UsageImportCursor = UsageImportCursor(
    sourceId: string,
    revision: string,
    sourceKind: string,
    format: string,
    snapshotHash: Option<string>)

  // The descriptive fields of an event that no rule of the recorder reads.
  datatype Details = Details(
    agentVersion: Option<string>,
    toolServer: Option<string>,
    objective: Option<string>,
    requestedScope: Option<string>,
    grantedScope: Option<string>,
    policyName: Option<string>,
    policyReason: Option<string>,
    chatSessionId: Option<string>,
    chatTurnId: Option<string>,
    subagentSessionId: Option<string>)

  const NO_DETAILS := Details(None, None, None, None, None, None, None, None, None, None)

  datatype FlightEvent = FlightEvent(
    id: Guid,
    runId: Guid,
    kind: EventKind,
    name: string,
    startedAt: Instant,
    endedAt: Option<Instant>,
    status: EventStatus,
    agentName: Option<string>,
    model: Option<string>,
    identity: Option<string>,
    details: Details,
    inputTokens: Option<int>,
    outputTokens: Option<int>,
    estimatedCost: Option<Decimal>,
    costBasis: Option<string>,
    input: Option<string>,
    output: Option<string>,
    attributes: Option<map<string, string>>,
    parentEventId: Option<Guid>,
    usageSchemaVersion: Option<int>,
    imported: Option<ImportedUsage>,
    taskId: Option<Guid>,
    parentTaskId: Option<Guid>,
    traceId: Option<string>,
    spanId: Option<string>,
    reportedAiCredits: Option<Decimal>,
    estimatedAiCredits: Option<Decimal>)

  datatype TraceRun = TraceRun(
    id: Guid,
    request: string,
    entryPointAgent: string,
    requestingIdentity: string,
    recordingMode: RecordingMode,
    startedAt: Instant,
    endedAt: Option<Instant>,
    events: seq<FlightEvent>,
    usageImports: Option<seq<UsageImportCursor>>)

  function Counters(events: seq<FlightEvent>, counter: FlightEvent -> Option<int>): (r: seq<Option<int>>)
    ensures |r| == |events|
    ensures forall i | 0 <= i < |events| :: r[i] == counter(events[i])
  {
    seq(|events|, i requires 0 <= i < |events| => counter(events[i]))
  }

  function RunInputTokens(run: TraceRun): Option<int> {
    Total(Counters(run.events, (e: FlightEvent) => e.inputTokens))
  }

  function RunOutputTokens(run: TraceRun): Option<int> {
    Total(Counters(run.events, (e: FlightEvent) => e.outputTokens))
  }

  function ImportedCounter(e: FlightEvent, counter: ImportedUsage -> Option<int>): Option<int> {
    if e.imported.Some? then counter(e.imported.value) else None
  }

  function RunEstimatedInputTokens(run: TraceRun): Option<int> {
    Total(Counters(run.events, (e: FlightEvent) => ImportedCounter(e, (u: ImportedUsage) => u.estimatedInputTokens)))
  }

  function RunEstimatedOutputTokens(run: TraceRun): Option<int> {
    Total(Counters(run.events, (e: FlightEvent) => ImportedCounter(e, (u: ImportedUsage) => u.estimatedOutputTokens)))
  }

  function RunNanoAiu(run: TraceRun): Option<int> {
    Total(Counters(run.events, (e: FlightEvent) => ImportedCounter(e, (u: ImportedUsage) => u.nanoAiu)))
  }

  // What an event counts.
  datatype Counter =
    | Input | Output | Cost | ReportedCredits | EstimatedCredits
    | EstimatedInput | EstimatedOutput | CacheRead | CacheWrite | NanoAiu

  function OfEvent(e: FlightEvent, c: Counter): Option<int> {
    match c
    case Input => e.inputTokens
    case Output => e.outputTokens
    case Cost => e.estimatedCost
    case ReportedCredits => e.reportedAiCredits
    case EstimatedCredits => e.estimatedAiCredits
    case EstimatedInput => ImportedCounter(e, (u: ImportedUsage) => u.estimatedInputTokens)
    case EstimatedOutput => ImportedCounter(e, (u: ImportedUsage) => u.estimatedOutputTokens)
    case CacheRead => ImportedCounter(e, (u: ImportedUsage) => u.cacheReadTokens)
    case CacheWrite => ImportedCounter(e, (u: ImportedUsage) => u.cacheWriteTokens)
    case NanoAiu => ImportedCounter(e, (u: ImportedUsage) => u.nanoAiu)
  }

  function EventTotal(events: seq<FlightEvent>, c: Counter): Option<int> {
    Total(Counters(events, (e: FlightEvent) => OfEvent(e, c)))
  }

  lemma EventTotalOfSnoc(events: seq<FlightEvent>, e: FlightEvent, c: Counter)
    ensures EventTotal(events + [e], c) == Combine(EventTotal(events, c), OfEvent(e, c))
  {
    var f := (e: FlightEvent) => OfEvent(e, c);
    assert Counters(events + [e], f) == Counters(events, f) + [OfEvent(e, c)];
    TotalOfConcat(Counters(events, f), [OfEvent(e, c)]);
    assert [OfEvent(e, c)][1..] == [];
  }

  // 1e19 units of 1e-28 make 1e-9 of a credit.
  const UNITS_PER_NANO: Decimal := 10_000_000_000_000_000_000

  function NanoToCredits(nano: Option<int>): Option<Decimal> {
    if nano.Some? then Some(nano.value * UNITS_PER_NANO) else None
  }

  predicate HasEvent(events: seq<FlightEvent>, id: Guid) {
    exists i | 0 <= i < |events| :: events[i].id == id
  }

  predicate Metered(e: FlightEvent) {
    e.inputTokens.Some? || e.outputTokens.Some? || e.estimatedCost.Some?
  }

  predicate IsCacheKey(key: string) {
    key == "sdk.cacheReadCount" || key == "sdk.cacheWriteCount"
  }

  // HasCacheCounters on the attributes an event keeps.
  predicate HasCacheCounters(attributes: Option<map<string, string>>) {
    attributes.Some? && ("sdk.cacheReadCount" in attributes.value || "sdk.cacheWriteCount" in attributes.value)
  }
}
