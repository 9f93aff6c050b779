/** Reading stored runs back: SqliteTraceRunStore.Decode and ValidateUsageImports. */
module Decoding {
  import opened Results
  import opened Text
  import opened Trace
  import opened UsageImports

  // A row of the runs table. Serialisation of the payload is taken as faithful.
  datatype Row = Row(id: Guid, startedTicks: int, completedTicks: Option<int>, payload: TraceRun)

  function Ticks(instant: Option<Instant>): Option<int> {
    if instant.Some? then Some(instant.value.utc) else None
  }

  // SqliteTraceRunStore.Write
  function Encode(run: TraceRun): Row {
    Row(run.id, run.startedAt.utc, Ticks(run.endedAt), run)
  }

  predicate ColumnsMatch(row: Row) {
    && row.payload.id != 0 && row.payload.id == row.id
    && row.payload.startedAt.utc == row.startedTicks && Ticks(row.payload.endedAt) == row.completedTicks
  }

  predicate FieldsAcceptable(e: FlightEvent, runId: Guid) {
    && e.id != 0 && e.runId == runId
    && NotNegative(e.inputTokens) && NotNegative(e.outputTokens) && NotNegative(e.estimatedCost)
    && NotNegative(e.reportedAiCredits) && NotNegative(e.estimatedAiCredits)
    && (e.parentTaskId.Some? ==> e.taskId.Some?)
    && (e.usageSchemaVersion == None || e.usageSchemaVersion == Some(1))
    && e.startedAt.utc >= 0 && (e.endedAt.Some? ==> e.endedAt.value.utc >= e.startedAt.utc)
  }

  // Event ids are unique and every parent is an earlier event of the run.
  ghost predicate WellOrdered(events: seq<FlightEvent>) {
    && (forall i, j | 0 <= i < j < |events| :: events[i].id != events[j].id)
    && (forall i | 0 <= i < |events| :: ParentIsEarlier(events, i))
  }

  ghost predicate ParentIsEarlier(events: seq<FlightEvent>, i: int)
    requires 0 <= i < |events|
  {
    events[i].parentEventId.Some? ==> exists k | 0 <= k < i :: events[k].id == events[i].parentEventId.value
  }

  // What ValidateObservation is asked about a stored imported event.
  function AsObservation(e: FlightEvent): UsageObservation
    requires e.imported.Some?
  {
    var u := e.imported.value;
    UsageObservation(u.observationId, u.quality, e.model, Some(e.startedAt), e.inputTokens, e.outputTokens,
                     u.estimatedInputTokens, u.estimatedOutputTokens, u.cacheReadTokens, u.cacheWriteTokens, u.nanoAiu)
  }

  predicate ImportAcceptable(e: FlightEvent, cursor: UsageImportCursor)
    requires e.imported.Some?
  {
    var u := e.imported.value;
    && u.sourceId == cursor.sourceId && u.sourceKind == cursor.sourceKind && u.format == cursor.format
    && IsHash(u.observationId)
    && (u.timestampMeaning == "observed" || u.timestampMeaning == "import-time")
    && e.kind == ModelCall && e.status == Succeeded && e.usageSchemaVersion == Some(1) && e.endedAt.None?
    && e.estimatedCost.None? && e.costBasis.None? && e.input.None? && e.output.None? && e.attributes.None?
    && ValidObservation(u.sourceKind, AsObservation(e))
  }

  predicate CursorAcceptable(cursor: UsageImportCursor) {
    && IsHash(cursor.sourceId) && IsHash(cursor.revision)
    && cursor.snapshotHash.Some? && IsHash(cursor.snapshotHash.value)
    && IsSource(cursor.sourceKind, cursor.format)
  }

  // Metering that came in by another way than an import.
  predicate ForeignMetering(e: FlightEvent) {
    e.imported.None? && (Metered(e) || HasCacheCounters(e.attributes))
  }

  function ImportedEvents(events: seq<FlightEvent>): seq<FlightEvent> {
    if events == [] then []
    else
      var last := events[|events| - 1];
      ImportedEvents(events[..|events| - 1]) + if last.imported.Some? then [last] else []
  }

  ghost predicate DistinctlyObserved(events: seq<FlightEvent>) {
    forall i, j | 0 <= i < j < |events| && events[i].imported.Some? && events[j].imported.Some? ::
      Lower(events[i].imported.value.observationId) != Lower(events[j].imported.value.observationId)
  }

  ghost predicate ImportsAcceptable(run: TraceRun) {
    if run.usageImports.None? || run.usageImports.value == [] then
      forall i | 0 <= i < |run.events| :: run.events[i].imported.None?
    else
      var cursor := run.usageImports.value[0];
      && |run.usageImports.value| == 1 && 0 < |ImportedEvents(run.events)| <= MAXIMUM_OBSERVATIONS
      && CursorAcceptable(cursor)
      && (forall i | 0 <= i < |run.events| :: !ForeignMetering(run.events[i]))
      && (forall i | 0 <= i < |run.events| && run.events[i].imported.Some? :: ImportAcceptable(run.events[i], cursor))
      && DistinctlyObserved(run.events)
  }

  ghost predicate EventsAcceptable(run: TraceRun) {
    && (forall i | 0 <= i < |run.events| :: FieldsAcceptable(run.events[i], run.id))
    && WellOrdered(run.events)
  }

  ghost predicate Acceptable(run: TraceRun) {
    EventsAcceptable(run) && ImportsAcceptable(run)
  }

  // Older writers stored omitted measurements as zero.
  function WithoutZero(count: Option<int>): Option<int> {
    if count == Some(0) then None else count
  }

  function UpgradedEvent(e: FlightEvent): FlightEvent {
    if e.usageSchemaVersion.None? then
      e.(inputTokens := WithoutZero(e.inputTokens), outputTokens := WithoutZero(e.outputTokens),
         estimatedCost := WithoutZero(e.estimatedCost))
    else e
  }

  function Upgraded(run: TraceRun): TraceRun {
    run.(usageImports := Some(run.usageImports.GetOr([])),
         events := seq(|run.events|, i requires 0 <= i < |run.events| => UpgradedEvent(run.events[i])))
  }

  ghost function Decoded(row: Row): Result<TraceRun, RecorderError> {
    if ColumnsMatch(row) && Acceptable(row.payload) then Ok(Upgraded(row.payload)) else Err(StorageError)
  }

  // ----- The reader -----

  lemma {:induction false} ImportedEventsAre(events: seq<FlightEvent>)
    ensures forall e :: e in ImportedEvents(events) <==> e in events && e.imported.Some?
  {
    if events != [] {
      ImportedEventsAre(events[..|events| - 1]);
      assert events == events[..|events| - 1] + [events[|events| - 1]];
    }
  }

  // The observations of the imported events, read one after another, are
  // pairwise different exactly when they are so in place.
  lemma {:induction false} ImportedInOrder(events: seq<FlightEvent>)
    ensures DistinctlyObserved(ImportedEvents(events)) <==> DistinctlyObserved(events)
  {
    if events != [] {
      var init, last := events[..|events| - 1], events[|events| - 1];
      ImportedInOrder(init);
      ImportedEventsAre(init);
      assert events == init + [last];
      if last.imported.Some? {
        ObservedOneMore(ImportedEvents(init), last);
        ObservedOneMore(init, last);
        assert ImportedEvents(events) == ImportedEvents(init) + [last];
      } else {
        assert ImportedEvents(events) == ImportedEvents(init);
      }
    }
  }

  lemma ObservedOneMore(events: seq<FlightEvent>, last: FlightEvent)
    requires last.imported.Some?
    ensures DistinctlyObserved(events + [last]) <==>
            DistinctlyObserved(events) && forall e | e in events && e.imported.Some? ::
              Lower(e.imported.value.observationId) != Lower(last.imported.value.observationId)
  {
    var more := events + [last];
    if DistinctlyObserved(more) {
      assert forall i | 0 <= i < |events| :: more[i] == events[i];
      forall e | e in events && e.imported.Some?
        ensures Lower(e.imported.value.observationId) != Lower(last.imported.value.observationId)
      {
        var i :| 0 <= i < |events| && events[i] == e;
        assert more[i] == e && more[|events|] == last;
      }
    }
  }

  method ValidateUsageImports(run: TraceRun) returns (valid: bool)
    ensures valid <==> ImportsAcceptable(run)
  {
    var imported := ImportedEvents(run.events);
    ImportedEventsAre(run.events);
    if run.usageImports.None? || run.usageImports.value == [] {
      valid := imported == [];
      NoneImported(run.events);
      return;
    }
    if |run.usageImports.value| != 1 || |imported| == 0 || |imported| > MAXIMUM_OBSERVATIONS {
      return false;
    }
    var cursor := run.usageImports.value[0];
    if !CursorAcceptable(cursor) || exists i | 0 <= i < |run.events| :: ForeignMetering(run.events[i]) {
      return false;
    }
    ImportedInOrder(run.events);
    valid := ValidateProvenance(imported, cursor);
    AcceptableInOrder(run.events, cursor);
  }

  lemma AcceptableInOrder(events: seq<FlightEvent>, cursor: UsageImportCursor)
    ensures forall e | e in ImportedEvents(events) :: e.imported.Some?
    ensures (forall e | e in ImportedEvents(events) :: ImportAcceptable(e, cursor)) <==>
            (forall i | 0 <= i < |events| && events[i].imported.Some? :: ImportAcceptable(events[i], cursor))
  {
    ImportedEventsAre(events);
    assert forall i | 0 <= i < |events| && events[i].imported.Some? :: events[i] in ImportedEvents(events);
  }

  method ValidateProvenance(imported: seq<FlightEvent>, cursor: UsageImportCursor) returns (valid: bool)
    requires forall e | e in imported :: e.imported.Some?
    ensures valid <==> (forall e | e in imported :: ImportAcceptable(e, cursor)) && DistinctlyObserved(imported)
  {
    var identifiers: set<string> := {};
    for n := 0 to |imported|
      invariant identifiers == set k | 0 <= k < n :: Lower(imported[k].imported.value.observationId)
      invariant forall k | 0 <= k < n :: ImportAcceptable(imported[k], cursor)
      invariant DistinctlyObserved(imported[..n])
    {
      var evt := imported[n];
      assert evt in imported;
      var id := Lower(evt.imported.value.observationId);
      if !ImportAcceptable(evt, cursor) {
        return false;
      }
      if id in identifiers {
        return false;
      }
      identifiers := identifiers + {id};
      ObservedOneMore(imported[..n], evt);
      assert imported[..n + 1] == imported[..n] + [evt];
    }
    assert imported[..|imported|] == imported;
    return true;
  }

  lemma NoneImported(events: seq<FlightEvent>)
    ensures ImportedEvents(events) == [] <==> forall i | 0 <= i < |events| :: events[i].imported.None?
  {
    ImportedEventsAre(events);
    if ImportedEvents(events) != [] {
      assert ImportedEvents(events)[0] in events;
    }
  }

  method Decode(row: Row) returns (r: Result<TraceRun, RecorderError>)
    ensures r == Decoded(row)
  {
    var run := row.payload;
    if !ColumnsMatch(row) {
      return Err(StorageError);
    }
    var seen: set<Guid> := {};
    for n := 0 to |run.events|
      invariant seen == set k | 0 <= k < n :: run.events[k].id
      invariant forall k | 0 <= k < n :: FieldsAcceptable(run.events[k], run.id)
      invariant WellOrdered(run.events[..n])
    {
      var evt := run.events[n];
      assert ParentIsEarlier(run.events, n) <==> evt.parentEventId.Some? ==> evt.parentEventId.value in seen;
      if !FieldsAcceptable(evt, run.id) || evt.id in seen ||
         (evt.parentEventId.Some? && evt.parentEventId.value !in seen) {
        return Err(StorageError);
      }
      WellOrderedOneMore(run.events, n);
      seen := seen + {evt.id};
    }
    assert run.events[..|run.events|] == run.events;
    var importsValid := ValidateUsageImports(run);
    if !importsValid {
      return Err(StorageError);
    }
    r := Ok(Upgraded(run));
  }

  lemma WellOrderedOneMore(events: seq<FlightEvent>, n: nat)
    requires n < |events| && WellOrdered(events[..n])
    requires forall k | 0 <= k < n :: events[k].id != events[n].id
    requires ParentIsEarlier(events, n)
    ensures WellOrdered(events[..n + 1])
  {
    var a, b := events[..n], events[..n + 1];
    assert b == a + [events[n]];
    forall i | 0 <= i < |b| ensures ParentIsEarlier(b, i) {
      if i < n {
        assert ParentIsEarlier(a, i);
        if b[i].parentEventId.Some? {
          var k :| 0 <= k < i && a[k].id == a[i].parentEventId.value;
          assert b[k] == a[k];
        }
      } else if b[i].parentEventId.Some? {
        var k :| 0 <= k < n && events[k].id == events[n].parentEventId.value;
        assert b[k] == events[k];
      }
    }
  }
}
