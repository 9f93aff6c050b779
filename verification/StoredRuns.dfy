/**
 What the store reads back and what it drops, said over the fields of rows and runs: which
 rows are sound, what reading changes in one, and which completed runs outrank another.
 */
module StoredRuns {
  import opened Results
  import opened Text
  import opened Trace
  import opened UsageImports
  import opened Policy
  import opened Decoding
  import opened Retention
  import opened Stores
  import opened Recording
  import opened Service

  // ----- Which rows are sound -----

  predicate AtLeastZero(count: Option<int>) {
    count.None? || count.value >= 0
  }

  ghost predicate EventIsSound(run: TraceRun, i: nat)
    requires i < |run.events|
  {
    var e := run.events[i];
    && e.id != 0 && e.runId == run.id && (forall k | 0 <= k < i :: run.events[k].id != e.id)
    && (e.parentEventId.None? || exists k :: 0 <= k < i && Some(run.events[k].id) == e.parentEventId)
    && AtLeastZero(e.inputTokens) && AtLeastZero(e.outputTokens) && AtLeastZero(e.estimatedCost)
    && AtLeastZero(e.reportedAiCredits) && AtLeastZero(e.estimatedAiCredits)
    && !(e.parentTaskId.Some? && e.taskId.None?) && e.usageSchemaVersion in {None, Some(1)}
    && 0 <= e.startedAt.utc && (e.endedAt.None? || e.startedAt.utc <= e.endedAt.value.utc)
  }

  // The provenance of an imported event agrees with itself and with the run's import.
  predicate ProvenanceIsSound(e: FlightEvent, cursor: UsageImportCursor) {
    e.imported.Some? &&
    var u := e.imported.value;
    var measured := e.inputTokens.Some? || e.outputTokens.Some? || u.cacheReadTokens.Some? || u.cacheWriteTokens.Some?;
    var estimated := u.estimatedInputTokens.Some? || u.estimatedOutputTokens.Some?;
    && u.sourceId == cursor.sourceId && u.sourceKind == cursor.sourceKind && u.format == cursor.format
    && IsHash(u.observationId) && u.timestampMeaning in {"observed", "import-time"}
    && e.kind == ModelCall && e.status == Succeeded && e.usageSchemaVersion == Some(1) && e.endedAt.None?
    && e.estimatedCost.None? && e.costBasis.None? && e.input.None? && e.output.None? && e.attributes.None?
    && !(measured && estimated)
    && u.quality == (if measured then "measured" else if estimated then "estimated" else "unavailable")
    && AtLeastZero(e.inputTokens) && AtLeastZero(e.outputTokens)
    && AtLeastZero(u.estimatedInputTokens) && AtLeastZero(u.estimatedOutputTokens)
    && AtLeastZero(u.cacheReadTokens) && AtLeastZero(u.cacheWriteTokens)
    && (u.nanoAiu.None? || (u.sourceKind == "copilot-cli" && 0 <= u.nanoAiu.value <= 9_007_199_254_740_991))
    && (e.model.None? || ValidModel(e.model.value)) && SinceEpoch(e.startedAt)
  }

  // No other metering beside an import.
  predicate IsUnmetered(e: FlightEvent) {
    && e.inputTokens.None? && e.outputTokens.None? && e.estimatedCost.None?
    && (e.attributes.None?
        || ("sdk.cacheReadCount" !in e.attributes.value && "sdk.cacheWriteCount" !in e.attributes.value))
  }

  // Where the imported events are.
  ghost function ImportedAt(events: seq<FlightEvent>): set<nat> {
    set i: nat | i < |events| && events[i].imported.Some?
  }

  ghost predicate ImportIsSound(run: TraceRun, cursor: UsageImportCursor) {
    && 1 <= |ImportedAt(run.events)| <= 1000
    && IsHash(cursor.sourceId) && IsHash(cursor.revision)
    && cursor.snapshotHash.Some? && IsHash(cursor.snapshotHash.value)
    && (cursor.sourceKind, cursor.format) in
         {("vscode-chat", "vscode-json"), ("vscode-chat", "vscode-delta-jsonl"), ("vscode-chat", "vscode-event-jsonl"),
          ("copilot-cli", "copilot-cli-db"), ("copilot-cli", "copilot-cli-events")}
    && (forall i | 0 <= i < |run.events| ::
          if run.events[i].imported.Some? then ProvenanceIsSound(run.events[i], cursor) else IsUnmetered(run.events[i]))
    && (forall i, k | 0 <= i < k < |run.events| && run.events[i].imported.Some? && run.events[k].imported.Some? ::
          Lower(run.events[i].imported.value.observationId) != Lower(run.events[k].imported.value.observationId))
  }

  ghost predicate RunIsSound(run: TraceRun) {
    var imports := run.usageImports.GetOr([]);
    && run.id != 0 && (forall i | 0 <= i < |run.events| :: EventIsSound(run, i))
    && if imports == [] then forall i | 0 <= i < |run.events| :: run.events[i].imported.None?
       else |imports| == 1 && ImportIsSound(run, imports[0])
  }

  ghost predicate RowIsSound(row: Row) {
    var run := row.payload;
    && RunIsSound(run) && row.id == run.id && row.startedTicks == run.startedAt.utc
    && row.completedTicks == (match run.endedAt case Some(end) => Some(end.utc) case None => None)
  }

  lemma {:induction false} ImportedCountIs(events: seq<FlightEvent>)
    ensures |ImportedAt(events)| == |ImportedEvents(events)|
  {
    if events != [] {
      var init, last := events[..|events| - 1], events[|events| - 1];
      ImportedCountIs(init);
      assert ImportedAt(events) == ImportedAt(init) + if last.imported.Some? then {|init|} else {};
    } else {
      assert ImportedAt(events) == {};
    }
  }

  lemma EventsAreSoundExactly(run: TraceRun)
    ensures EventsAcceptable(run) <==> forall i | 0 <= i < |run.events| :: EventIsSound(run, i)
  {
    if EventsAcceptable(run) {
      forall i | 0 <= i < |run.events| ensures EventIsSound(run, i) {
        assert FieldsAcceptable(run.events[i], run.id) && ParentIsEarlier(run.events, i);
      }
    }
    if forall i | 0 <= i < |run.events| :: EventIsSound(run, i) {
      SoundEventsAreAcceptable(run);
    }
  }

  lemma SoundEventsAreAcceptable(run: TraceRun)
    requires forall i | 0 <= i < |run.events| :: EventIsSound(run, i)
    ensures EventsAcceptable(run)
  {
    forall i | 0 <= i < |run.events| ensures FieldsAcceptable(run.events[i], run.id) && ParentIsEarlier(run.events, i) {
      assert EventIsSound(run, i);
    }
    forall i, j | 0 <= i < j < |run.events| ensures run.events[i].id != run.events[j].id {
      assert EventIsSound(run, j);
    }
  }

  lemma ProvenanceIsSoundExactly(e: FlightEvent, cursor: UsageImportCursor)
    requires e.imported.Some?
    ensures ImportAcceptable(e, cursor) <==> ProvenanceIsSound(e, cursor)
  {
  }

  lemma ImportIsSoundExactly(run: TraceRun)
    requires run.usageImports.Some? && |run.usageImports.value| == 1
    ensures ImportsAcceptable(run) <==> ImportIsSound(run, run.usageImports.value[0])
  {
    var cursor := run.usageImports.value[0];
    ImportedCountIs(run.events);
    forall i | 0 <= i < |run.events|
      ensures run.events[i].imported.Some? ==>
                (ImportAcceptable(run.events[i], cursor) <==> ProvenanceIsSound(run.events[i], cursor))
      ensures run.events[i].imported.None? ==> (ForeignMetering(run.events[i]) <==> !IsUnmetered(run.events[i]))
    {
      if run.events[i].imported.Some? { ProvenanceIsSoundExactly(run.events[i], cursor); }
    }
  }

  // A row is read if and only if it is sound.
  lemma RowsAreReadExactly(row: Row)
    ensures Decoded(row).Ok? <==> RowIsSound(row)
  {
    var run := row.payload;
    EventsAreSoundExactly(run);
    if run.usageImports.Some? && |run.usageImports.value| == 1 { ImportIsSoundExactly(run); }
  }

  // ----- What reading changes -----

  // A zero of an older writer counts as not measured.
  predicate IsUpgraded(before: Option<int>, after: Option<int>) {
    after == if before == Some(0) then None else before
  }

  // An event as it is read: as stored, but for the zeros of one without a schema version.
  ghost predicate EventIsRead(stored: FlightEvent, read: FlightEvent) {
    && stored == read.(inputTokens := stored.inputTokens, outputTokens := stored.outputTokens,
                       estimatedCost := stored.estimatedCost)
    && if stored.usageSchemaVersion == Some(1) then read == stored
       else
         && IsUpgraded(stored.inputTokens, read.inputTokens) && IsUpgraded(stored.outputTokens, read.outputTokens)
         && IsUpgraded(stored.estimatedCost, read.estimatedCost)
  }

  // Reading changes nothing but old zeros and a missing list of imports.
  lemma RowsAreReadAs(row: Row, run: TraceRun)
    requires Decoded(row) == Ok(run)
    ensures run.(events := row.payload.events, usageImports := row.payload.usageImports) == row.payload
    ensures run.usageImports == Some(row.payload.usageImports.GetOr([])) && |run.events| == |row.payload.events|
    ensures forall i | 0 <= i < |run.events| :: EventIsRead(row.payload.events[i], run.events[i])
  {
    forall i | 0 <= i < |run.events| ensures EventIsRead(row.payload.events[i], run.events[i]) {
      assert FieldsAcceptable(row.payload.events[i], row.payload.id);
    }
  }

  lemma ReadEventIsSound(stored: TraceRun, run: TraceRun, i: nat)
    requires run == Upgraded(stored) && i < |run.events| && EventIsSound(stored, i)
    ensures EventIsSound(run, i)
  {
    forall k | 0 <= k < i ensures run.events[k].id == stored.events[k].id { }
  }

  lemma ReadMeteringIsSound(e: FlightEvent, cursor: UsageImportCursor)
    requires if e.imported.Some? then ProvenanceIsSound(e, cursor) else IsUnmetered(e)
    ensures var r := UpgradedEvent(e);
            if r.imported.Some? then ProvenanceIsSound(r, cursor) else IsUnmetered(r)
  {
  }

  lemma ReadImportIsSound(stored: TraceRun, run: TraceRun, cursor: UsageImportCursor)
    requires run == Upgraded(stored) && ImportIsSound(stored, cursor)
    ensures ImportIsSound(run, cursor)
  {
    assert ImportedAt(run.events) == ImportedAt(stored.events);
    forall i | 0 <= i < |run.events|
      ensures if run.events[i].imported.Some? then ProvenanceIsSound(run.events[i], cursor)
              else IsUnmetered(run.events[i])
    {
      ReadMeteringIsSound(stored.events[i], cursor);
    }
  }

  lemma ReadIsSound(stored: TraceRun, run: TraceRun)
    requires RunIsSound(stored) && run == Upgraded(stored)
    ensures RunIsSound(run)
  {
    forall i | 0 <= i < |run.events| ensures EventIsSound(run, i) {
      ReadEventIsSound(stored, run, i);
    }
    var imports := stored.usageImports.GetOr([]);
    if imports != [] { ReadImportIsSound(stored, run, imports[0]); }
  }

  // What has been read once and written back reads the same for ever.
  lemma ReadingIsStable(row: Row, run: TraceRun)
    requires Decoded(row) == Ok(run)
    ensures Decoded(Encode(run)) == Ok(run)
  {
    RowsAreReadExactly(row);
    ReadIsSound(row.payload, run);
    RowsAreReadExactly(Encode(run));
    assert Upgraded(run).events == run.events;
  }

  // ----- Which completed runs are dropped -----

  // Ended later; or at the same time but started later; or at the same times with a lower id.
  predicate Outranks(a: TraceRun, b: TraceRun) {
    && a.endedAt.Some? && b.endedAt.Some?
    && if a.endedAt.value.utc != b.endedAt.value.utc then a.endedAt.value.utc > b.endedAt.value.utc
       else if a.startedAt.utc != b.startedAt.utc then a.startedAt.utc > b.startedAt.utc
       else a.id < b.id
  }

  ghost function Outranking(runs: Runs, id: Guid): set<Guid>
    requires id in runs
  {
    set j | j in runs && Outranks(runs[j], runs[id])
  }

  lemma {:induction false} ImageCount(runs: Runs, ids: set<Guid>)
    requires Keyed(runs) && forall j | j in ids :: IsCompleted(runs, j)
    ensures |set j | j in ids :: KeyOf(runs, j)| == |ids|
    decreases ids
  {
    if ids != {} {
      var j :| j in ids;
      ImageCount(runs, ids - {j});
      var image := set i | i in ids - {j} :: KeyOf(runs, i);
      forall i | i in ids - {j} ensures KeyOf(runs, i) != KeyOf(runs, j) {
        assert runs[i].id == i && runs[j].id == j;
      }
      assert (set i | i in ids :: KeyOf(runs, i)) == image + {KeyOf(runs, j)};
    }
  }

  lemma OutrankingIsAhead(runs: Runs, id: Guid)
    requires Keyed(runs) && IsCompleted(runs, id)
    ensures |AheadOf(CompletedKeys(runs), KeyOf(runs, id))| == |Outranking(runs, id)|
  {
    var ids := Outranking(runs, id);
    ImageCount(runs, ids);
    var image := set j | j in ids :: KeyOf(runs, j);
    forall k ensures k in AheadOf(CompletedKeys(runs), KeyOf(runs, id)) <==> k in image {
      if k in CompletedKeys(runs) && Ahead(k, KeyOf(runs, id)) {
        var j :| j in runs && IsCompleted(runs, j) && KeyOf(runs, j) == k;
        assert j in ids;
      }
      if k in image {
        var j :| j in ids && KeyOf(runs, j) == k;
        assert k in CompletedKeys(runs);
      }
    }
    assert AheadOf(CompletedKeys(runs), KeyOf(runs, id)) == image;
  }

  // Pruning keeps a run exactly when it is unfinished or fewer runs than the limit outrank it.
  lemma RetainedExactly(runs: Runs, limit: nat, id: Guid)
    requires Keyed(runs) && id in runs
    ensures id in Retained(runs, limit) <==> runs[id].endedAt.None? || |Outranking(runs, id)| < limit
  {
    if IsCompleted(runs, id) {
      OutrankingIsAhead(runs, id);
      assert KeyOf(runs, id) in CompletedKeys(runs);
    }
  }

  // Completing a stored run sets its end, keeps every unfinished run and the completed ones
  // that fewer than the limit outrank, all as they were, and drops the others; an unknown run
  // is not found, and nothing changes.
  lemma CompletionDrops(env: Environment, limit: nat, s: MemoryService, op: Operation)
    requires Trusted(env) && Invariant(env, limit, s) && op.CompleteRun?
    ensures op.runId !in s.runs ==> MemoryStep(env, limit, s, op) == (s, NotFound)
    ensures op.runId in s.runs ==>
              var all := s.runs[op.runId := s.runs[op.runId].(endedAt := Some(op.endedAt))];
              var (after, reply) := MemoryStep(env, limit, s, op);
              && reply == Completed && after.minted == s.minted
              && (forall id :: id in after.runs <==>
                    id in all && (all[id].endedAt.None? || |Outranking(all, id)| < limit))
              && (forall id | id in after.runs :: after.runs[id] == all[id])
  {
    if op.runId in s.runs {
      assert RunOk(env, s.minted, s.runs, op.runId);
      InvariantIsKeyed(env, limit, s);
      var all := s.runs[op.runId := s.runs[op.runId].(endedAt := Some(op.endedAt))];
      forall id | id in all
        ensures id in Retained(all, limit) <==> all[id].endedAt.None? || |Outranking(all, id)| < limit
      {
        RetainedExactly(all, limit, id);
      }
    }
  }

  lemma UpdateDropsNothing(runs: Runs, limit: nat, id: Guid, update: TraceRun -> Change)
    requires id in runs && WithinLimit(runs, limit)
    requires var change := update(runs[id]);
             change.Replace? ==> change.run.id == runs[id].id && change.run.startedAt == runs[id].startedAt
                                 && change.run.endedAt == runs[id].endedAt
    ensures var after := MemoryUpdate(runs, limit, id, update).0;
            forall j | j in runs :: j in after && (j != id ==> after[j] == runs[j])
  {
    var change := update(runs[id]);
    if change.Replace? {
      RewritingStores(runs, limit, id, change.run);
    }
  }

  // No other operation drops a run, and each leaves every other run as it was.
  lemma OnlyCompletionDrops(env: Environment, limit: nat, s: MemoryService, op: Operation, id: Guid)
    requires Trusted(env) && Invariant(env, limit, s) && !op.CompleteRun? && id in s.runs
    ensures var after := MemoryStep(env, limit, s, op).0;
            id in after.runs && (op.StartRun? || op.runId != id ==> after.runs[id] == s.runs[id])
  {
    if Admissible(op) {
      if op.StartRun? {
        StartedIsBeside(env, limit, s, op);
      } else if op.runId in s.runs {
        var verdict := Decide(env, s.minted, op, s.runs[op.runId]);
        assert RunOk(env, s.minted, s.runs, op.runId);
        DecideKeepsEnd(env, s.minted, op, s.runs[op.runId]);
        UpdateDropsNothing(s.runs, limit, op.runId, _ => verdict.change);
      }
    }
  }

  lemma StartedIsBeside(env: Environment, limit: nat, s: MemoryService, op: Operation)
    requires Trusted(env) && Invariant(env, limit, s) && op.StartRun? && Admissible(op)
    ensures var run := StartedRun(env, op.start, env.newGuid(s.minted), op.startedAt);
            run.id !in s.runs && MemoryStep(env, limit, s, op).0.runs == s.runs[run.id := run]
  {
    var run := StartedRun(env, op.start, env.newGuid(s.minted), op.startedAt);
    FreshIsUnknown(env, limit, s);
    InvariantIsKeyed(env, limit, s);
    UnfinishedStaysWithinLimit(s.runs, limit, run);
    NothingToPrune(s.runs[run.id := run], limit);
  }

  lemma DecideKeepsEnd(env: Environment, minted: nat, op: Operation, run: TraceRun)
    requires !op.StartRun? && !op.CompleteRun?
    ensures var change := Decide(env, minted, op, run).change;
            change.Replace? ==>
              change.run.id == run.id && change.run.startedAt == run.startedAt && change.run.endedAt == run.endedAt
  {
  }

  // ----- Which imports are refused outright -----

  predicate IsModelText(model: Option<string>) {
    model.None? || (!IsBlank(model.value) && |model.value| <= 200
                    && forall i | 0 <= i < |model.value| :: !IsForbiddenInModel(model.value[i]))
  }

  // An observation reports counts, and billing only for the CLI; it says of itself whether
  // they are measured, estimated or missing.
  predicate ObservationFollowsRules(kind: string, o: UsageObservation) {
    var measured := o.inputTokens.Some? || o.outputTokens.Some? || o.cacheReadTokens.Some? || o.cacheWriteTokens.Some?;
    var estimated := o.estimatedInputTokens.Some? || o.estimatedOutputTokens.Some?;
    && IsHash(o.id) && IsModelText(o.model)
    && (o.timestamp.None? || 0 <= o.timestamp.value.utc <= 2_534_023_007_999_999_999)
    && AtLeastZero(o.inputTokens) && AtLeastZero(o.outputTokens)
    && AtLeastZero(o.estimatedInputTokens) && AtLeastZero(o.estimatedOutputTokens)
    && AtLeastZero(o.cacheReadTokens) && AtLeastZero(o.cacheWriteTokens)
    && (o.nanoAiu.None? || (kind == "copilot-cli" && 0 <= o.nanoAiu.value <= 9_007_199_254_740_991))
    && !(measured && estimated)
    && o.quality == (if measured then "measured" else if estimated then "estimated" else "unavailable")
  }

  // A request brings 1 to 1000 observations of different names in a format of its source.
  ghost predicate ImportFollowsRules(sourceId: string, r: UsageImportRequest) {
    && IsHash(sourceId) && IsHash(r.revision) && (r.expectedRevision.None? || IsHash(r.expectedRevision.value))
    && (r.sourceKind, r.format) in
         {("vscode-chat", "vscode-json"), ("vscode-chat", "vscode-delta-jsonl"), ("vscode-chat", "vscode-event-jsonl"),
          ("copilot-cli", "copilot-cli-db"), ("copilot-cli", "copilot-cli-events")}
    && 1 <= |r.observations| <= 1000
    && (forall i | 0 <= i < |r.observations| :: ObservationFollowsRules(r.sourceKind, r.observations[i]))
    && (forall i, k | 0 <= i < k < |r.observations| :: Lower(r.observations[i].id) != Lower(r.observations[k].id))
  }

  lemma ObservationRulesAreExact(kind: string, o: UsageObservation)
    ensures IsHash(o.id) && ValidObservation(kind, o) <==> ObservationFollowsRules(kind, o)
  {
  }

  // The recorder's validation accepts exactly the requests that follow the rules.
  lemma ImportRulesAreExact(sourceId: string, r: UsageImportRequest)
    ensures ValidImport(sourceId, r) <==> ImportFollowsRules(sourceId, r)
  {
    forall i | 0 <= i < |r.observations|
      ensures IsHash(r.observations[i].id) && ValidObservation(r.sourceKind, r.observations[i]) <==>
              ObservationFollowsRules(r.sourceKind, r.observations[i])
    {
      ObservationRulesAreExact(r.sourceKind, r.observations[i]);
    }
    assert forall i | 0 <= i < |r.observations| :: Ids(r.observations)[i] == r.observations[i].id;
  }

  // An import that breaks them is refused before the run is looked at.
  lemma BrokenRulesAreRefused(env: Environment, limit: nat, s: MemoryService, op: Operation)
    requires op.ImportUsage? && !ImportFollowsRules(op.sourceId, op.import_)
    ensures MemoryStep(env, limit, s, op) == (s, Rejected(ValidationError))
  {
    ImportRulesAreExact(op.sourceId, op.import_);
  }
}
