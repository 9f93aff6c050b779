/** ImportUsage: a compare-and-swap of whole usage snapshots (FlightRecorderService.UsageImports.cs). */
module Importing {
  import opened Results
  import opened Text
  import opened Totals
  import opened Trace
  import opened UsageImports
  import opened Policy
  import opened Normalising
  import opened Decoding

  datatype ImportResult = ImportResult(sourceId: string, revision: string, importedCount: nat, changed: bool)

  datatype ImportOutcome =
    | Refused(error: RecorderError)
    | Unchanged(result: ImportResult)
    | Replaced(run: TraceRun, minted: nat, result: ImportResult)

  // A validated import with everything the callback reads from it.
  datatype Import = Import(
    sourceId: string,
    sourceKind: string,
    format: string,
    revision: string,
    expectedRevision: Option<string>,
    observations: seq<UsageObservation>,
    snapshotHash: string,
    now: Instant)

  function Prepared(env: Environment, sourceId: string, request: UsageImportRequest, now: Instant): Import {
    var observations := Normalise(request.observations);
    Import(Lower(sourceId), request.sourceKind, request.format, Lower(request.revision),
           if request.expectedRevision.Some? then Some(Lower(request.expectedRevision.value)) else None,
           observations, env.hash(Snapshot(request.sourceKind, request.format, observations)), now)
  }

  function CursorOf(run: TraceRun): Option<UsageImportCursor> {
    if run.usageImports.Some? && run.usageImports.value != [] then Some(run.usageImports.value[0]) else None
  }

  function RevisionOf(run: TraceRun): Option<string> {
    if CursorOf(run).Some? then Some(CursorOf(run).value.revision) else None
  }

  predicate SameSource(cursor: UsageImportCursor, import_: Import) {
    cursor.sourceId == import_.sourceId && cursor.sourceKind == import_.sourceKind && cursor.format == import_.format
  }

  predicate HasForeignMetering(events: seq<FlightEvent>) {
    exists i | 0 <= i < |events| :: ForeignMetering(events[i])
  }

  predicate IsObservation(e: FlightEvent, id: string) {
    e.imported.Some? && e.imported.value.observationId == id
  }

  function FindId(observations: seq<UsageObservation>, id: string): (i: nat)
    ensures i <= |observations|
    ensures i < |observations| ==> observations[i].id == id
    ensures forall k | 0 <= k < i :: observations[k].id != id
  {
    if observations == [] then 0
    else if observations[0].id == id then 0
    else
      var rest := FindId(observations[1..], id);
      assert forall k | 1 <= k < 1 + rest :: observations[k] == observations[1..][k - 1];
      1 + rest
  }

  function ImportedIds(events: seq<FlightEvent>): set<string> {
    set i | 0 <= i < |events| && events[i].imported.Some? :: events[i].imported.value.observationId
  }

  function SnapshotIds(observations: seq<UsageObservation>): set<string> {
    set i | 0 <= i < |observations| :: observations[i].id
  }

  // The event that holds an observation, new or in place of an earlier one.
  function Observed(env: Environment, run: TraceRun, import_: Import, o: UsageObservation,
                    previous: Option<FlightEvent>, id: Guid): FlightEvent {
    var meaning :=
      if o.timestamp.Some? then "observed"
      else if previous.Some? && previous.value.imported.Some? then previous.value.imported.value.timestampMeaning
      else "import-time";
    var provenance := ImportedUsage(import_.sourceId, o.id, import_.sourceKind, import_.format, o.quality,
      o.estimatedInputTokens, o.estimatedOutputTokens, o.cacheReadTokens, o.cacheWriteTokens, o.nanoAiu, meaning);
    var startedAt := o.timestamp.GetOr(if previous.Some? then previous.value.startedAt else import_.now);
    FlightEvent(id, run.id, ModelCall, "Imported Copilot usage", startedAt, None, Succeeded,
                Some("local-usage-import"), Metadata(env, run.recordingMode, o.model), Some("local-usage-collector"),
                NO_DETAILS, o.inputTokens, o.outputTokens, None, None, None, None, None,
                if previous.Some? then previous.value.parentEventId else None,
                Some(1), Some(provenance), None, None, None, None, NanoToCredits(o.nanoAiu), None)
  }

  // A withdrawn observation keeps its identity and place but counts as nothing.
  function Withdrawn(e: FlightEvent): FlightEvent
    requires e.imported.Some?
  {
    e.(inputTokens := None, outputTokens := None, estimatedCost := None, costBasis := None,
       reportedAiCredits := None, estimatedAiCredits := None,
       imported := Some(e.imported.value.(quality := "unavailable", estimatedInputTokens := None,
                          estimatedOutputTokens := None, cacheReadTokens := None, cacheWriteTokens := None,
                          nanoAiu := None)))
  }

  // What an import makes of one event the run already has.
  function Corrected(env: Environment, run: TraceRun, import_: Import, e: FlightEvent): FlightEvent {
    if e.imported.None? then e
    else
      var i := FindId(import_.observations, e.imported.value.observationId);
      if i < |import_.observations| then Observed(env, run, import_, import_.observations[i], Some(e), e.id)
      else Withdrawn(e)
  }

  function CorrectedEvents(env: Environment, run: TraceRun, import_: Import): (r: seq<FlightEvent>)
    ensures |r| == |run.events|
    ensures forall i | 0 <= i < |r| :: r[i] == Corrected(env, run, import_, run.events[i])
  {
    seq(|run.events|, i requires 0 <= i < |run.events| => Corrected(env, run, import_, run.events[i]))
  }

  function ImportedRun(env: Environment, run: TraceRun, minted: nat, import_: Import): TraceRun {
    run.(events := CorrectedEvents(env, run, import_) + Additions(env, run, import_, minted, |import_.observations|),
         usageImports := Some([UsageImportCursor(import_.sourceId, import_.revision, import_.sourceKind, import_.format,
                                                 Some(import_.snapshotHash))]))
  }

  function ImportInto(env: Environment, run: TraceRun, minted: nat, import_: Import): ImportOutcome {
    var cursor := CursorOf(run);
    var count := |import_.observations|;
    if cursor.Some? && !SameSource(cursor.value, import_) then Refused(ConflictError)
    else if HasForeignMetering(run.events) then Refused(ConflictError)
    else if RevisionOf(run) == Some(import_.revision) then
      if cursor.value.snapshotHash != Some(import_.snapshotHash) then Refused(ConflictError)
      else Unchanged(ImportResult(import_.sourceId, import_.revision, count, false))
    else if RevisionOf(run) != import_.expectedRevision then Refused(ConflictError)
    else if |ImportedIds(run.events) + SnapshotIds(import_.observations)| > MAXIMUM_OBSERVATIONS
        then Refused(ValidationError)
    else
      Replaced(ImportedRun(env, run, minted, import_),
               minted + |Additions(env, run, import_, minted, count)|,
               ImportResult(import_.sourceId, import_.revision, count, true))
  }

  // ----- The callback itself -----

  ghost predicate DistinctEventIds(events: seq<FlightEvent>) {
    forall i, j | 0 <= i < j < |events| :: events[i].id != events[j].id
  }

  ghost predicate DistinctObservations(events: seq<FlightEvent>) {
    forall i, j | 0 <= i < j < |events| && events[i].imported.Some? && events[j].imported.Some? ::
      events[i].imported.value.observationId != events[j].imported.value.observationId
  }

  ghost predicate Holds(events: seq<FlightEvent>, m: map<string, FlightEvent>) {
    forall id | id in m :: m[id] in events && IsObservation(m[id], id)
  }

  // ToDictionary: the imported events by observation.
  method ByObservation(events: seq<FlightEvent>) returns (m: map<string, FlightEvent>)
    ensures m.Keys == ImportedIds(events) && Holds(events, m)
  {
    m := map[];
    for n := 0 to |events|
      invariant m.Keys == ImportedIds(events[..n]) && Holds(events, m)
    {
      var e := events[n];
      ImportedIdsOfPrefix(events, n);
      if e.imported.Some? {
        m := m[e.imported.value.observationId := e];
      }
    }
    assert events[..|events|] == events;
  }

  lemma ImportedIdsOfPrefix(events: seq<FlightEvent>, n: nat)
    requires n < |events|
    ensures ImportedIds(events[..n + 1]) ==
            ImportedIds(events[..n]) + if events[n].imported.Some? then {events[n].imported.value.observationId} else {}
  {
    var a, b := events[..n], events[..n + 1];
    assert b == a + [events[n]];
    forall id | id in ImportedIds(a) ensures id in ImportedIds(b) {
      var i :| 0 <= i < |a| && a[i].imported.Some? && a[i].imported.value.observationId == id;
      assert b[i] == a[i];
    }
    assert b[n] == events[n];
  }

  // The replacements gathered so far are exactly the corrections of the
  // imported events whose observations are done.
  ghost predicate Gathered(events: seq<FlightEvent>, corrected: seq<FlightEvent>, done: set<string>,
                           replacements: map<Guid, FlightEvent>)
    requires |corrected| == |events|
  {
    && (forall i | 0 <= i < |events| :: GatheredAt(events, corrected, done, replacements, i))
    && (forall id | id in replacements :: Replaces(events, done, id))
  }

  ghost predicate GatheredAt(events: seq<FlightEvent>, corrected: seq<FlightEvent>, done: set<string>,
                             replacements: map<Guid, FlightEvent>, i: int)
    requires 0 <= i < |corrected| == |events|
  {
    events[i].imported.Some? && events[i].imported.value.observationId in done ==>
      events[i].id in replacements && replacements[events[i].id] == corrected[i]
  }

  ghost predicate Replaces(events: seq<FlightEvent>, done: set<string>, id: Guid) {
    exists i | 0 <= i < |events| ::
      events[i].id == id && events[i].imported.Some? && events[i].imported.value.observationId in done
  }

  lemma Gather(events: seq<FlightEvent>, corrected: seq<FlightEvent>, done: set<string>,
               replacements: map<Guid, FlightEvent>, p: nat)
    requires |corrected| == |events| && DistinctEventIds(events) && DistinctObservations(events)
    requires Gathered(events, corrected, done, replacements)
    requires p < |events| && events[p].imported.Some?
    ensures Gathered(events, corrected, done + {events[p].imported.value.observationId},
                     replacements[events[p].id := corrected[p]])
  {
    var more := done + {events[p].imported.value.observationId};
    var after := replacements[events[p].id := corrected[p]];
    forall i | 0 <= i < |events| ensures GatheredAt(events, corrected, more, after, i) {
      assert GatheredAt(events, corrected, done, replacements, i);
    }
    forall id | id in after ensures Replaces(events, more, id) {
      if id == events[p].id {
        assert Replaces(events, more, events[p].id);
      } else {
        var i :| 0 <= i < |events| && events[i].id == id && events[i].imported.Some?
          && events[i].imported.value.observationId in done;
      }
    }
  }

  // Outside the replacements an event is left as it was.
  lemma GatheredAll(events: seq<FlightEvent>, corrected: seq<FlightEvent>, done: set<string>,
                    replacements: map<Guid, FlightEvent>, i: nat)
    requires |corrected| == |events| && DistinctEventIds(events)
    requires Gathered(events, corrected, done, replacements)
    requires ImportedIds(events) <= done && i < |events|
    requires events[i].imported.None? ==> corrected[i] == events[i]
    ensures (if events[i].id in replacements then replacements[events[i].id] else events[i]) == corrected[i]
  {
    if events[i].imported.Some? {
      assert events[i].imported.value.observationId in ImportedIds(events);
      assert GatheredAt(events, corrected, done, replacements, i);
    } else {
      assert !Replaces(events, done, events[i].id);
    }
  }

  // current.Events.Select(evt => replacements.GetValueOrDefault(evt.Id, evt))
  function Rebuilt(events: seq<FlightEvent>, replacements: map<Guid, FlightEvent>): seq<FlightEvent> {
    seq(|events|, i requires 0 <= i < |events| =>
        if events[i].id in replacements then replacements[events[i].id] else events[i])
  }

  lemma RebuiltIsCorrected(events: seq<FlightEvent>, corrected: seq<FlightEvent>, done: set<string>,
                           replacements: map<Guid, FlightEvent>)
    requires |corrected| == |events| && DistinctEventIds(events)
    requires Gathered(events, corrected, done, replacements) && ImportedIds(events) <= done
    requires forall i | 0 <= i < |events| :: events[i].imported.None? ==> corrected[i] == events[i]
    ensures Rebuilt(events, replacements) == corrected
  {
    forall i | 0 <= i < |events| ensures Rebuilt(events, replacements)[i] == corrected[i] {
      GatheredAll(events, corrected, done, replacements, i);
    }
  }

  // What the first loop has settled after n observations.
  ghost predicate Placed(env: Environment, run: TraceRun, import_: Import, n: nat,
                         existing: map<string, FlightEvent>, replacements: map<Guid, FlightEvent>) {
    && n <= |import_.observations|
    && existing.Keys == ImportedIds(run.events) - SnapshotIds(import_.observations[..n])
    && Holds(run.events, existing)
    && Gathered(run.events, CorrectedEvents(env, run, import_), SnapshotIds(import_.observations[..n]), replacements)
  }

  lemma PlaceKnown(env: Environment, run: TraceRun, import_: Import, n: nat,
                   existing: map<string, FlightEvent>, replacements: map<Guid, FlightEvent>)
    requires DistinctEventIds(run.events) && DistinctObservations(run.events) && Distinct(Ids(import_.observations))
    requires Placed(env, run, import_, n, existing, replacements)
    requires n < |import_.observations| && import_.observations[n].id in existing
    ensures var item := import_.observations[n];
            var previous := existing[item.id];
            Placed(env, run, import_, n + 1, existing - {item.id},
                   replacements[previous.id := Observed(env, run, import_, item, Some(previous), previous.id)])
    ensures import_.observations[n].id in ImportedIds(run.events)
  {
    var item := import_.observations[n];
    var previous := existing[item.id];
    var p :| 0 <= p < |run.events| && run.events[p] == previous;
    SnapshotIdsOfPrefix(import_.observations, n);
    PlacedInStead(env, run, import_, n, p);
    Gather(run.events, CorrectedEvents(env, run, import_), SnapshotIds(import_.observations[..n]), replacements, p);
  }

  lemma PlaceNew(env: Environment, run: TraceRun, import_: Import, n: nat,
                 existing: map<string, FlightEvent>, replacements: map<Guid, FlightEvent>)
    requires Distinct(Ids(import_.observations))
    requires Placed(env, run, import_, n, existing, replacements)
    requires n < |import_.observations| && import_.observations[n].id !in existing
    ensures Placed(env, run, import_, n + 1, existing, replacements)
    ensures import_.observations[n].id !in ImportedIds(run.events)
  {
    var id := import_.observations[n].id;
    SnapshotIdsOfPrefix(import_.observations, n);
    assert id !in ImportedIds(run.events);
    LeavesOut(ImportedIds(run.events), SnapshotIds(import_.observations[..n]), id);
    GatherNothing(run.events, CorrectedEvents(env, run, import_), SnapshotIds(import_.observations[..n]), replacements,
        id);
  }

  // One observation takes the place of the event that held it, or is added.
  method PlaceOne(env: Environment, run: TraceRun, minted: nat, import_: Import, n: nat,
                  existing: map<string, FlightEvent>, replacements: map<Guid, FlightEvent>, additions: seq<FlightEvent>)
    returns (existing': map<string, FlightEvent>, replacements': map<Guid, FlightEvent>, additions': seq<FlightEvent>)
    requires DistinctEventIds(run.events) && DistinctObservations(run.events)
    requires Distinct(Ids(import_.observations)) && n < |import_.observations|
    requires Placed(env, run, import_, n, existing, replacements)
    ensures Placed(env, run, import_, n + 1, existing', replacements')
    ensures additions' == WithNext(env, run, import_, minted, n, additions)
  {
    existing', replacements', additions' := existing, replacements, additions;
    var item := import_.observations[n];
    if item.id in existing {
      var previous := existing[item.id];
      PlaceKnown(env, run, import_, n, existing, replacements);
      existing' := existing - {item.id};
      replacements' := replacements[previous.id := Observed(env, run, import_, item, Some(previous), previous.id)];
    } else {
      PlaceNew(env, run, import_, n, existing, replacements);
      additions' := additions + [Observed(env, run, import_, item, None, env.newGuid(minted + |additions|))];
    }
  }

  method PlaceObservations(env: Environment, run: TraceRun, minted: nat, import_: Import)
    returns (existing: map<string, FlightEvent>, replacements: map<Guid, FlightEvent>, additions: seq<FlightEvent>)
    requires DistinctEventIds(run.events) && DistinctObservations(run.events)
    requires Distinct(Ids(import_.observations))
    ensures Placed(env, run, import_, |import_.observations|, existing, replacements)
    ensures additions == Additions(env, run, import_, minted, |import_.observations|)
  {
    existing := ByObservation(run.events);
    replacements := map[];
    additions := [];
    for n := 0 to |import_.observations|
      invariant Placed(env, run, import_, n, existing, replacements)
      invariant additions == Additions(env, run, import_, minted, n)
    {
      existing, replacements, additions := PlaceOne(env, run, minted, import_, n, existing, replacements, additions);
    }
  }

  lemma SnapshotIdsOfPrefix(observations: seq<UsageObservation>, n: nat)
    requires n < |observations| && Distinct(Ids(observations))
    ensures SnapshotIds(observations[..n + 1]) == SnapshotIds(observations[..n]) + {observations[n].id}
    ensures observations[n].id !in SnapshotIds(observations[..n])
  {
    var a, b := observations[..n], observations[..n + 1];
    assert b == a + [observations[n]];
    forall id | id in SnapshotIds(a) ensures id in SnapshotIds(b) {
      var i :| 0 <= i < |a| && a[i].id == id;
      assert b[i] == a[i];
    }
    assert b[n] == observations[n];
    assert forall k | 0 <= k < n :: Ids(observations)[k] != Ids(observations)[n];
  }

  // The additions once observation n has been looked at.
  function WithNext(env: Environment, run: TraceRun, import_: Import, minted: nat, n: nat,
                    added: seq<FlightEvent>): seq<FlightEvent>
    requires n < |import_.observations|
  {
    var o := import_.observations[n];
    if o.id in ImportedIds(run.events) then added
    else added + [Observed(env, run, import_, o, None, env.newGuid(minted + |added|))]
  }

  // The events for the observations among the first n that the run does not have yet.
  function Additions(env: Environment, run: TraceRun, import_: Import, minted: nat, n: nat): seq<FlightEvent>
    requires n <= |import_.observations|
  {
    if n == 0 then [] else WithNext(env, run, import_, minted, n - 1, Additions(env, run, import_, minted, n - 1))
  }

  lemma GatherNothing(events: seq<FlightEvent>, corrected: seq<FlightEvent>, done: set<string>,
                      replacements: map<Guid, FlightEvent>, id: string)
    requires |corrected| == |events| && Gathered(events, corrected, done, replacements)
    requires id !in ImportedIds(events)
    ensures Gathered(events, corrected, done + {id}, replacements)
  {
    forall i | 0 <= i < |events| ensures GatheredAt(events, corrected, done + {id}, replacements, i) {
      assert GatheredAt(events, corrected, done, replacements, i);
      assert events[i].imported.Some? ==> events[i].imported.value.observationId in ImportedIds(events);
    }
    forall g | g in replacements ensures Replaces(events, done + {id}, g) {
      assert Replaces(events, done, g);
    }
  }

  lemma PlacedInStead(env: Environment, run: TraceRun, import_: Import, n: nat, p: nat)
    requires Distinct(Ids(import_.observations)) && n < |import_.observations| && p < |run.events|
    requires IsObservation(run.events[p], import_.observations[n].id)
    ensures CorrectedEvents(env, run, import_)[p] ==
            Observed(env, run, import_, import_.observations[n], Some(run.events[p]), run.events[p].id)
  {
    assert forall i | 0 <= i < n :: Ids(import_.observations)[i] != Ids(import_.observations)[n];
    assert FindId(import_.observations, import_.observations[n].id) == n;
  }

  lemma LeftOut(env: Environment, run: TraceRun, import_: Import, p: nat)
    requires p < |run.events| && run.events[p].imported.Some?
    requires run.events[p].imported.value.observationId !in SnapshotIds(import_.observations)
    ensures CorrectedEvents(env, run, import_)[p] == Withdrawn(run.events[p])
  {
    var id := run.events[p].imported.value.observationId;
    assert forall i | 0 <= i < |import_.observations| ::
        import_.observations[i].id in SnapshotIds(import_.observations);
    assert FindId(import_.observations, id) == |import_.observations|;
  }

  // The state of the second loop, with `done` the observations dealt with.
  ghost predicate Withdrawing(env: Environment, run: TraceRun, import_: Import, existing: map<string, FlightEvent>,
                              done: set<string>, replacements: map<Guid, FlightEvent>) {
    && Holds(run.events, existing)
    && existing.Keys !! SnapshotIds(import_.observations)
    && existing.Keys + done == SnapshotIds(import_.observations) + ImportedIds(run.events)
    && Gathered(run.events, CorrectedEvents(env, run, import_), done, replacements)
  }

  lemma WithdrawOne(env: Environment, run: TraceRun, import_: Import, existing: map<string, FlightEvent>,
                    done: set<string>, replacements: map<Guid, FlightEvent>, id: string)
    requires DistinctEventIds(run.events) && DistinctObservations(run.events)
    requires Withdrawing(env, run, import_, existing, done, replacements) && id in existing
    ensures existing[id].imported.Some?
    ensures Withdrawing(env, run, import_, existing - {id}, done + {id},
                        replacements[existing[id].id := Withdrawn(existing[id])])
  {
    var p :| 0 <= p < |run.events| && run.events[p] == existing[id];
    MoveAcross(existing.Keys, done, id);
    assert (existing - {id}).Keys == existing.Keys - {id};
    LeftOut(env, run, import_, p);
    Gather(run.events, CorrectedEvents(env, run, import_), done, replacements, p);
  }

  lemma LeavesOut<T>(from: set<T>, without: set<T>, x: T)
    requires x !in from
    ensures from - (without + {x}) == from - without
  {
  }

  lemma MoveAcross<T>(from: set<T>, to: set<T>, x: T)
    requires x in from
    ensures (from - {x}) + (to + {x}) == from + to
  {
  }

  // What the snapshot no longer mentions is withdrawn.
  method WithdrawRest(env: Environment, run: TraceRun, import_: Import, missing: map<string, FlightEvent>,
                      placed: map<Guid, FlightEvent>) returns (replacements: map<Guid, FlightEvent>)
    requires DistinctEventIds(run.events) && DistinctObservations(run.events)
    requires Withdrawing(env, run, import_, missing, SnapshotIds(import_.observations), placed)
    ensures Gathered(run.events, CorrectedEvents(env, run, import_),
                     SnapshotIds(import_.observations) + ImportedIds(run.events), replacements)
  {
    var existing := missing;
    replacements := placed;
    ghost var done := SnapshotIds(import_.observations);
    while existing.Keys != {}
      invariant Withdrawing(env, run, import_, existing, done, replacements)
      decreases existing.Keys
    {
      var id :| id in existing.Keys;
      WithdrawOne(env, run, import_, existing, done, replacements, id);
      var previous := existing[id];
      existing := existing - {id};
      replacements := replacements[previous.id := Withdrawn(previous)];
      done := done + {id};
    }
    assert done == SnapshotIds(import_.observations) + ImportedIds(run.events);
  }

  // The run with every observation placed and the rest withdrawn.
  method ReplaceSnapshot(env: Environment, run: TraceRun, minted: nat, import_: Import)
    returns (after: TraceRun, more: nat)
    requires DistinctEventIds(run.events) && DistinctObservations(run.events)
    requires Distinct(Ids(import_.observations))
    ensures after == ImportedRun(env, run, minted, import_)
    ensures more == minted + |Additions(env, run, import_, minted, |import_.observations|)|
  {
    var observations := import_.observations;
    var existing, placed, additions := PlaceObservations(env, run, minted, import_);
    assert observations[..|observations|] == observations;
    var replacements := WithdrawRest(env, run, import_, existing, placed);
    RebuiltIsCorrected(run.events, CorrectedEvents(env, run, import_),
                       SnapshotIds(observations) + ImportedIds(run.events), replacements);
    var events := Rebuilt(run.events, replacements);
    var cursors := [UsageImportCursor(import_.sourceId, import_.revision, import_.sourceKind, import_.format,
                                      Some(import_.snapshotHash))];
    after := run.(events := events + additions, usageImports := Some(cursors));
    more := minted + |additions|;
  }

  method ImportUsage(env: Environment, run: TraceRun, minted: nat, import_: Import) returns (outcome: ImportOutcome)
    requires DistinctEventIds(run.events) && DistinctObservations(run.events)
    requires Distinct(Ids(import_.observations))
    ensures outcome == ImportInto(env, run, minted, import_)
  {
    var cursor := CursorOf(run);
    var observations := import_.observations;
    if cursor.Some? && !SameSource(cursor.value, import_) {
      return Refused(ConflictError);
    }
    if HasForeignMetering(run.events) {
      return Refused(ConflictError);
    }
    if cursor.Some? && cursor.value.revision == import_.revision {
      if cursor.value.snapshotHash != Some(import_.snapshotHash) {
        return Refused(ConflictError);
      }
      return Unchanged(ImportResult(import_.sourceId, import_.revision, |observations|, false));
    }
    if RevisionOf(run) != import_.expectedRevision {
      return Refused(ConflictError);
    }
    if |ImportedIds(run.events) + SnapshotIds(observations)| > MAXIMUM_OBSERVATIONS {
      return Refused(ValidationError);
    }
    var after, more := ReplaceSnapshot(env, run, minted, import_);
    outcome := Replaced(after, more, ImportResult(import_.sourceId, import_.revision, |observations|, true));
  }
}
