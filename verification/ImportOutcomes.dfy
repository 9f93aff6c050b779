/**
 What an accepted import leaves in a run, said over the events and the request: every
 observation of the request is held by one event that says what it says, what is no longer
 mentioned counts as nothing, and the rest of the run is as it was.
 */
module ImportOutcomes {
  import opened Results
  import opened Text
  import opened Totals
  import opened Trace
  import opened UsageImports
  import opened Policy
  import opened Normalising
  import opened Importing
  import opened RunInvariants
  import opened Service
  import RetentionHistory
  import opened Metering

  // A model as the recording mode keeps it.
  ghost predicate KeepsModel(env: Environment, mode: RecordingMode, sent: Option<string>, kept: Option<string>) {
    && (sent.Some? <==> kept.Some?)
    && (sent.Some? && mode == Full ==> kept.value == Trim(sent.value))
    && (sent.Some? && mode != Full ==> kept.value == env.redact(Trim(sent.value)))
  }

  // The event counts for exactly what the observation reports.
  ghost predicate CountsAs(q: UsageObservation, e: FlightEvent) {
    && e.imported.Some? && e.imported.value.quality == q.quality
    && e.inputTokens == q.inputTokens && e.outputTokens == q.outputTokens
    && e.imported.value.estimatedInputTokens == q.estimatedInputTokens
    && e.imported.value.estimatedOutputTokens == q.estimatedOutputTokens
    && e.imported.value.cacheReadTokens == q.cacheReadTokens
    && e.imported.value.cacheWriteTokens == q.cacheWriteTokens
    && e.imported.value.nanoAiu == q.nanoAiu
    && (e.reportedAiCredits.Some? <==> q.nanoAiu.Some?)
    && (q.nanoAiu.Some? ==> e.reportedAiCredits.value == q.nanoAiu.value * 10_000_000_000_000_000_000)
    && e.estimatedCost.None? && e.estimatedAiCredits.None? && e.costBasis.None?
  }

  // The event holds an observation of the request under the source that sent it.
  ghost predicate HoldsObservation(env: Environment, run: TraceRun, sourceId: string, request: UsageImportRequest,
                                   q: UsageObservation, e: FlightEvent) {
    && CountsAs(q, e)
    && e.imported.value.observationId == Lower(q.id) && e.imported.value.sourceId == Lower(sourceId)
    && e.imported.value.sourceKind == request.sourceKind && e.imported.value.format == request.format
    && KeepsModel(env, run.recordingMode, q.model, e.model)
    && (q.timestamp.Some? ==>
       e.startedAt == Instant(q.timestamp.value.utc, 0) && e.imported.value.timestampMeaning == "observed")
    && e.runId == run.id && e.kind == ModelCall && e.status == Succeeded && e.name == "Imported Copilot usage"
    && e.agentName == Some("local-usage-import") && e.identity == Some("local-usage-collector")
    && e.endedAt.None? && e.details == NO_DETAILS && e.input.None? && e.output.None? && e.attributes.None?
    && e.usageSchemaVersion == Some(1) && e.taskId.None? && e.parentTaskId.None? && e.traceId.None? && e.spanId.None?
  }

  // An event made for an observation that tells no time of its own.
  ghost predicate KeepsTime(q: UsageObservation, before: FlightEvent, e: FlightEvent) {
    && e.id == before.id && e.parentEventId == before.parentEventId
    && (q.timestamp.None? ==> e.startedAt == before.startedAt && before.imported.Some? && e.imported.Some?
                              && e.imported.value.timestampMeaning == before.imported.value.timestampMeaning)
  }

  ghost predicate TakesTimeOfImport(q: UsageObservation, now: Instant, e: FlightEvent) {
    && e.parentEventId.None?
    && (q.timestamp.None? ==>
       e.startedAt == now && e.imported.Some? && e.imported.value.timestampMeaning == "import-time")
  }

  // The prepared import of a request.
  ghost predicate IsPrepared(env: Environment, sourceId: string, request: UsageImportRequest, now: Instant,
                             import_: Import) {
    import_ == Prepared(env, sourceId, request, now) && HashesAreHashes(env) && ValidImport(sourceId, request)
        && SinceEpoch(now)
  }

  lemma ObservedHolds(env: Environment, run: TraceRun, sourceId: string, request: UsageImportRequest, now: Instant,
                      import_: Import, q: UsageObservation, previous: Option<FlightEvent>, id: Guid)
    requires import_ == Prepared(env, sourceId, request, now) && (previous.Some? ==> previous.value.imported.Some?)
    ensures var e := Observed(env, run, import_, NormaliseOne(q), previous, id);
            && HoldsObservation(env, run, sourceId, request, q, e) && e.id == id
            && (previous.Some? && previous.value.id == id ==> KeepsTime(q, previous.value, e))
            && (previous.None? ==> TakesTimeOfImport(q, now, e))
  {
  }

  // Every observation of a request is in the prepared import, in its normal form.
  lemma PreparedHas(env: Environment, sourceId: string, request: UsageImportRequest, now: Instant, q: UsageObservation)
    returns (j: nat)
    requires q in request.observations
    ensures var import_ := Prepared(env, sourceId, request, now);
            j < |import_.observations| && import_.observations[j] == NormaliseOne(q)
  {
    var each, ordered := NormaliseEach(request.observations), OrderById(NormaliseEach(request.observations));
    var i :| 0 <= i < |request.observations| && request.observations[i] == q;
    assert each[i] == NormaliseOne(q) && NormaliseOne(q) in multiset(each);
    assert NormaliseOne(q) in multiset(ordered);
    j :| 0 <= j < |ordered| && ordered[j] == NormaliseOne(q);
  }

  lemma FoundAt(observations: seq<UsageObservation>, j: nat)
    requires j < |observations| && Distinct(Ids(observations))
    ensures FindId(observations, observations[j].id) == j
  {
    var n := FindId(observations, observations[j].id);
    assert Ids(observations)[n] == Ids(observations)[j];
  }

  // Where an observation is held after the import: in the place that held it, or behind.
  lemma HeldInPlace(env: Environment, run: TraceRun, minted: nat, sourceId: string, request: UsageImportRequest,
                    now: Instant,
                    import_: Import, q: UsageObservation, j: nat, i: nat)
    requires IsPrepared(env, sourceId, request, now, import_) && Distinct(Ids(import_.observations))
    requires j < |import_.observations| && import_.observations[j] == NormaliseOne(q)
    requires i < |run.events| && IsObservation(run.events[i], Lower(q.id))
    ensures var e := ImportedRun(env, run, minted, import_).events[i];
            HoldsObservation(env, run, sourceId, request, q, e) && KeepsTime(q, run.events[i], e)
  {
    FoundAt(import_.observations, j);
    assert CorrectedEvents(env, run, import_)[i] ==
           Observed(env, run, import_, NormaliseOne(q), Some(run.events[i]), run.events[i].id);
    ObservedHolds(env, run, sourceId, request, now, import_, q, Some(run.events[i]), run.events[i].id);
  }

  lemma HeldBehind(env: Environment, run: TraceRun, minted: nat, sourceId: string, request: UsageImportRequest,
                   now: Instant,
                   import_: Import, q: UsageObservation, j: nat) returns (i: nat)
    requires IsPrepared(env, sourceId, request, now, import_)
    requires j < |import_.observations| && import_.observations[j] == NormaliseOne(q)
    requires Lower(q.id) !in ImportedIds(run.events)
    ensures var after := ImportedRun(env, run, minted, import_).events;
            && |run.events| <= i < |after|
            && HoldsObservation(env, run, sourceId, request, q, after[i]) && TakesTimeOfImport(q, now, after[i])
  {
    var n := |import_.observations|;
    var source := AdditionsHaveSources(env, run, import_, minted, n);
    var added := Additions(env, run, import_, minted, n);
    assert j in source;
    var k :| 0 <= k < |source| && source[k] == j;
    assert AddedAt(env, run, import_, minted, added, source, k);
    i := |run.events| + k;
    assert ImportedRun(env, run, minted, import_).events[i] == added[k];
    ObservedHolds(env, run, sourceId, request, now, import_, q, None, env.newGuid(minted + k));
  }

  // The one event that holds the observation of this name.
  ghost predicate OnlyHolder(events: seq<FlightEvent>, id: string, i: nat) {
    && i < |events| && IsObservation(events[i], id)
    && forall k | 0 <= k < |events| && k != i :: !IsObservation(events[k], id)
  }

  lemma HolderIsOnly(events: seq<FlightEvent>, id: string, i: nat)
    requires DistinctObservations(events) && i < |events| && IsObservation(events[i], id)
    ensures OnlyHolder(events, id, i)
  {
    forall k | 0 <= k < |events| && k != i ensures !IsObservation(events[k], id) {
      if k < i { assert k < i < |events|; } else { assert i < k < |events|; }
    }
  }

  // Where the observation was known before, its event keeps place, id and parent, and its time
  // where it tells none; a new one is behind.
  ghost predicate HeldInOrder(run: TraceRun, q: UsageObservation, now: Instant, events: seq<FlightEvent>, i: nat) {
    && i < |events|
    && if i < |run.events| then IsObservation(run.events[i], Lower(q.id)) && KeepsTime(q, run.events[i], events[i])
       else Lower(q.id) !in ImportedIds(run.events) && TakesTimeOfImport(q, now, events[i])
  }

  lemma SomeEventHolds(env: Environment, run: TraceRun, minted: nat, sourceId: string, request: UsageImportRequest,
                       now: Instant, import_: Import, q: UsageObservation) returns (i: nat)
    requires IsPrepared(env, sourceId, request, now, import_) && Distinct(Ids(import_.observations))
    requires q in request.observations
    ensures var events := ImportedRun(env, run, minted, import_).events;
            HeldInOrder(run, q, now, events, i) && HoldsObservation(env, run, sourceId, request, q, events[i])
  {
    var j := PreparedHas(env, sourceId, request, now, q);
    if Lower(q.id) in ImportedIds(run.events) {
      i :| 0 <= i < |run.events| && IsObservation(run.events[i], Lower(q.id));
      HeldInPlace(env, run, minted, sourceId, request, now, import_, q, j, i);
    } else {
      i := HeldBehind(env, run, minted, sourceId, request, now, import_, q, j);
    }
  }

  lemma ReplacedIsDistinct(env: Environment, run: TraceRun, minted: nat, import_: Import, outcome: ImportOutcome)
    requires FreshIdentifiers(env) && RedactionKeepsModelsValid(env) && ImportReady(import_)
    requires Legal(run) && Minted(env, minted, run)
    requires outcome == ImportInto(env, run, minted, import_) && outcome.Replaced?
    ensures DistinctObservations(outcome.run.events) && outcome.run == ImportedRun(env, run, minted, import_)
  {
    ImportKeepsLegal(env, run, minted, import_);
  }

  // After a replacement, every observation of the request is held by exactly one event, and
  // that event says what the observation says.
  lemma ObservationIsHeld(env: Environment, run: TraceRun, minted: nat, sourceId: string, request: UsageImportRequest,
                          now: Instant, import_: Import, q: UsageObservation, outcome: ImportOutcome) returns (i: nat)
    requires FreshIdentifiers(env) && RedactionKeepsModelsValid(env) && IsPrepared(env, sourceId, request, now, import_)
    requires Legal(run) && Minted(env, minted, run) && q in request.observations
    requires outcome == ImportInto(env, run, minted, import_) && outcome.Replaced?
    ensures OnlyHolder(outcome.run.events, Lower(q.id), i) && HeldInOrder(run, q, now, outcome.run.events, i)
    ensures HoldsObservation(env, run, sourceId, request, q, outcome.run.events[i])
  {
    PreparedIsReady(env, sourceId, request, now);
    ReplacedIsDistinct(env, run, minted, import_, outcome);
    i := SomeEventHolds(env, run, minted, sourceId, request, now, import_, q);
    HolderIsOnly(outcome.run.events, Lower(q.id), i);
  }

  // An observation that is no longer mentioned.
  ghost predicate CountsAsNothing(before: FlightEvent, e: FlightEvent) {
    && before.imported.Some? && e.imported.Some?
    && e.inputTokens.None? && e.outputTokens.None? && e.estimatedCost.None? && e.costBasis.None?
    && e.reportedAiCredits.None? && e.estimatedAiCredits.None?
    && e.imported.value.quality == "unavailable"
    && e.imported.value.estimatedInputTokens.None? && e.imported.value.estimatedOutputTokens.None?
    && e.imported.value.cacheReadTokens.None? && e.imported.value.cacheWriteTokens.None?
    && e.imported.value.nanoAiu.None?
    && e.imported.value.observationId == before.imported.value.observationId
    && e.imported.value.sourceId == before.imported.value.sourceId
    && e.imported.value.timestampMeaning == before.imported.value.timestampMeaning
    && e.id == before.id && e.parentEventId == before.parentEventId && e.startedAt == before.startedAt
    && e.model == before.model && e.kind == before.kind && e.name == before.name
  }

  ghost predicate IsMentioned(request: UsageImportRequest, id: string) {
    exists q | q in request.observations :: Lower(q.id) == id
  }

  lemma MentionedIsPrepared(env: Environment, sourceId: string, request: UsageImportRequest, now: Instant, id: string)
    ensures var import_ := Prepared(env, sourceId, request, now);
            FindId(import_.observations, id) < |import_.observations| ==> IsMentioned(request, id)
  {
    var each, ordered := NormaliseEach(request.observations), OrderById(NormaliseEach(request.observations));
    var n := FindId(ordered, id);
    if n < |ordered| {
      assert ordered[n] in multiset(ordered) && ordered[n] in multiset(each);
      var i :| 0 <= i < |each| && each[i] == ordered[n];
      assert request.observations[i] in request.observations && Lower(request.observations[i].id) == id;
    }
  }

  // Of the events that were there, those of other origin are untouched, and those whose
  // observation is no longer mentioned count as nothing. The run is then bound to the revision.
  lemma RestIsKept(env: Environment, run: TraceRun, minted: nat, sourceId: string, request: UsageImportRequest,
                   now: Instant, import_: Import, after: TraceRun)
    requires IsPrepared(env, sourceId, request, now, import_)
    requires ImportInto(env, run, minted, import_).Replaced? && after == ImportInto(env, run, minted, import_).run
    ensures |run.events| <= |after.events|
    ensures forall i | 0 <= i < |run.events| && run.events[i].imported.None? :: after.events[i] == run.events[i]
    ensures forall i | 0 <= i < |run.events| && run.events[i].imported.Some?
              && !IsMentioned(request, run.events[i].imported.value.observationId) ::
              CountsAsNothing(run.events[i], after.events[i])
    ensures CursorOf(after) == Some(UsageImportCursor(Lower(sourceId), Lower(request.revision), request.sourceKind,
                                                      request.format, Some(import_.snapshotHash)))
    ensures after == run.(events := after.events, usageImports := after.usageImports)
  {
    forall i | 0 <= i < |run.events| ensures after.events[i] == Corrected(env, run, import_, run.events[i]) {
      assert after.events[i] == CorrectedEvents(env, run, import_)[i];
    }
    forall i | 0 <= i < |run.events| && run.events[i].imported.Some?
        && !IsMentioned(request, run.events[i].imported.value.observationId)
      ensures CountsAsNothing(run.events[i], after.events[i])
    {
      MentionedIsPrepared(env, sourceId, request, now, run.events[i].imported.value.observationId);
    }
  }

  lemma AddedIsMentioned(env: Environment, run: TraceRun, minted: nat, import_: Import, added: seq<FlightEvent>,
                         source: seq<nat>, k: nat)
    requires AddedFrom(env, run, import_, minted, |import_.observations|, added, source) && k < |added|
    ensures added[k].imported.Some?
    ensures FindId(import_.observations, added[k].imported.value.observationId) < |import_.observations|
  {
    assert AddedAt(env, run, import_, minted, added, source, k);
    assert FindId(import_.observations, import_.observations[source[k]].id) <= source[k];
  }

  // No event is added but for an observation of the request.
  lemma OnlyMentionedIsAdded(env: Environment, run: TraceRun, minted: nat, sourceId: string,
                             request: UsageImportRequest,
                             now: Instant, import_: Import, after: TraceRun, i: nat)
    requires IsPrepared(env, sourceId, request, now, import_)
    requires ImportInto(env, run, minted, import_).Replaced? && after == ImportInto(env, run, minted, import_).run
    requires |run.events| <= i < |after.events|
    ensures after.events[i].imported.Some? && IsMentioned(request, after.events[i].imported.value.observationId)
  {
    var n, k := |import_.observations|, i - |run.events|;
    var source := AdditionsHaveSources(env, run, import_, minted, n);
    var added := Additions(env, run, import_, minted, n);
    assert after.events[i] == added[k];
    AddedIsMentioned(env, run, minted, import_, added, source, k);
    MentionedIsPrepared(env, sourceId, request, now, added[k].imported.value.observationId);
  }

  // ----- Over whole histories -----

  // After any history, an accepted import leaves every observation of its request held by
  // exactly one event of the run, which says what the observation says.
  lemma AcceptedImportIsHeld(env: Environment, limit: nat, history: seq<Operation>, op: Operation, q: UsageObservation)
    returns (i: nat)
    requires Trusted(env) && AllTimely(history) && Timely(op) && op.ImportUsage? && q in op.import_.observations
    requires Accepts(op, MemoryStep(env, limit, MemoryAfter(env, limit, history), op).1, op.runId)
    ensures var before, after := MemoryAfter(env, limit, history), MemoryAfter(env, limit, history + [op]);
            && op.runId in before.runs && op.runId in after.runs
            && OnlyHolder(after.runs[op.runId].events, Lower(q.id), i)
            && HeldInOrder(before.runs[op.runId], q, op.receivedAt, after.runs[op.runId].events, i)
            && HoldsObservation(env, before.runs[op.runId], op.sourceId, op.import_, q, after.runs[op.runId].events[i])
  {
    var s := MemoryAfter(env, limit, history);
    assert (history + [op])[..|history|] == history && (history + [op])[|history|] == op;
    HistoryKeepsInvariant(env, limit, history);
    i := StepIsHeld(env, limit, s, op, q);
  }

  lemma StepIsHeld(env: Environment, limit: nat, s: MemoryService, op: Operation, q: UsageObservation) returns (i: nat)
    requires Trusted(env) && Timely(op) && Invariant(env, limit, s) && op.ImportUsage? && q in op.import_.observations
    requires Accepts(op, MemoryStep(env, limit, s, op).1, op.runId)
    ensures var after := MemoryStep(env, limit, s, op).0;
            && op.runId in s.runs && op.runId in after.runs
            && OnlyHolder(after.runs[op.runId].events, Lower(q.id), i)
            && HeldInOrder(s.runs[op.runId], q, op.receivedAt, after.runs[op.runId].events, i)
            && HoldsObservation(env, s.runs[op.runId], op.sourceId, op.import_, q, after.runs[op.runId].events[i])
  {
    var after := AcceptedReplaces(env, limit, s, op);
    assert RunOk(env, s.minted, s.runs, op.runId);
    i := ObservationIsHeld(env, s.runs[op.runId], s.minted, op.sourceId, op.import_, op.receivedAt, ImportOf(env, op),
        q,
                           ImportInto(env, s.runs[op.runId], s.minted, ImportOf(env, op)));
  }

  // The run that is stored after an accepted import.
  lemma AcceptedReplaces(env: Environment, limit: nat, s: MemoryService, op: Operation) returns (after: TraceRun)
    requires Invariant(env, limit, s) && op.ImportUsage? && Accepts(op, MemoryStep(env, limit, s, op).1, op.runId)
    ensures op.runId in s.runs && Admissible(op) && op.runId in MemoryStep(env, limit, s, op).0.runs
    ensures MemoryStep(env, limit, s, op).0.runs[op.runId] == after
    ensures var outcome := ImportInto(env, s.runs[op.runId], s.minted, ImportOf(env, op));
            outcome.Replaced? && outcome.run == after
  {
    var run := s.runs[op.runId];
    var verdict := Decide(env, s.minted, op, run);
    assert RunOk(env, s.minted, s.runs, op.runId);
    DecideKeepsId(env, s.minted, op, run, verdict);
    StepIsApplied(env, limit, s, op, verdict);
    ChangedIsReplaced(env, s.minted, run, ImportOf(env, op));
    var written := RetentionHistory.WritingStep(env, limit, s, op, MemoryStep(env, limit, s, op).0);
    after := ImportInto(env, run, s.minted, ImportOf(env, op)).run;
  }

  lemma ChangedIsReplaced(env: Environment, minted: nat, run: TraceRun, import_: Import)
    ensures var outcome := ImportInto(env, run, minted, import_);
            && (outcome.Unchanged? ==> !outcome.result.changed)
            && (outcome.Replaced? ==> outcome.result.changed)
  {
  }
}
