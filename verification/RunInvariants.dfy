/**
 What every run written by the service keeps, and why the store can read each of
 them back unchanged.
 */
module RunInvariants {
  import opened Results
  import opened Text
  import opened Totals
  import opened Trace
  import opened UsageImports
  import opened Policy
  import opened TaskContexts
  import opened Recording
  import opened Normalising
  import opened Decoding
  import opened Importing

  // ----- The invariant -----

  ghost predicate MintedBy(env: Environment, minted: nat, id: Guid) {
    env.newGuid(env.serial(id)) == id && env.serial(id) < minted
  }

  ghost predicate EventLegal(e: FlightEvent, runId: Guid, cursor: Option<UsageImportCursor>) {
    && FieldsAcceptable(e, runId) && e.usageSchemaVersion == Some(1)
    && (if e.imported.Some? then
          && cursor.Some? && ImportAcceptable(e, cursor.value) && IsLowerHex(e.imported.value.observationId)
          && e.taskId.None? && e.traceId.None?
        else cursor.Some? ==> !ForeignMetering(e))
  }

  ghost predicate LegalAt(events: seq<FlightEvent>, i: int, runId: Guid, cursor: Option<UsageImportCursor>)
    requires 0 <= i < |events|
  {
    EventLegal(events[i], runId, cursor)
  }

  ghost predicate CursorLegal(run: TraceRun) {
    && run.usageImports.Some? && |run.usageImports.value| <= 1
    && (CursorOf(run).Some? ==>
          CursorAcceptable(CursorOf(run).value) && 0 < |ImportedEvents(run.events)| <= MAXIMUM_OBSERVATIONS)
  }

  ghost predicate EventsLegal(events: seq<FlightEvent>, runId: Guid, cursor: Option<UsageImportCursor>) {
    && (forall i | 0 <= i < |events| :: LegalAt(events, i, runId, cursor))
    && WellOrdered(events) && DistinctObservations(events)
  }

  ghost predicate Legal(run: TraceRun) {
    run.id != 0 && CursorLegal(run) && EventsLegal(run.events, run.id, CursorOf(run))
  }

  // All identifiers of a run came from the supply.
  ghost predicate Minted(env: Environment, minted: nat, run: TraceRun) {
    MintedBy(env, minted, run.id) && forall i | 0 <= i < |run.events| :: MintedBy(env, minted, run.events[i].id)
  }

  // ----- Everything the service writes, the store can read back -----

  lemma LegalRunsReadBack(run: TraceRun)
    requires Legal(run)
    ensures Acceptable(run)
    ensures Decoded(Encode(run)) == Ok(run)
  {
    assert DistinctlyObserved(run.events) by {
      forall i, j | 0 <= i < j < |run.events| && run.events[i].imported.Some? && run.events[j].imported.Some?
        ensures Lower(run.events[i].imported.value.observationId) != Lower(run.events[j].imported.value.observationId)
      {
        assert LegalAt(run.events, i, run.id, CursorOf(run)) && LegalAt(run.events, j, run.id, CursorOf(run));
        LowerFixesLowerHex(run.events[i].imported.value.observationId);
        LowerFixesLowerHex(run.events[j].imported.value.observationId);
      }
    }
    forall i | 0 <= i < |run.events|
      ensures FieldsAcceptable(run.events[i], run.id) && UpgradedEvent(run.events[i]) == run.events[i]
      ensures CursorOf(run).None? ==> run.events[i].imported.None?
      ensures CursorOf(run).Some? ==> !ForeignMetering(run.events[i])
      ensures run.events[i].imported.Some? ==> ImportAcceptable(run.events[i], CursorOf(run).value)
    {
      assert LegalAt(run.events, i, run.id, CursorOf(run));
    }
    assert Upgraded(run).events == run.events;
  }

  // ----- Starting and completing -----

  lemma StartedRunIsLegal(env: Environment, request: StartRunRequest, id: Guid, now: Instant)
    requires id != 0
    ensures Legal(StartedRun(env, request, id, now))
  {
  }

  // ----- Recording -----

  lemma RecordedEventIsLegal(env: Environment, run: TraceRun, r: RecordEventRequest, id: Guid, context: TaskContext)
    requires RedactionCreatesNoCacheKey(env)
    requires ValidRecord(r) && id != 0 && (IsBound(run) ==> !RequestsMetering(r))
    ensures EventLegal(RecordedEvent(env, run, r, id, context), run.id, CursorOf(run))
  {
    var e := RecordedEvent(env, run, r, id, context);
    if IsBound(run) && r.attributes.Some? {
      ProtectionAddsNoCacheCounter(env, run.recordingMode, r.attributes.value);
      assert IsCacheKey("sdk.cacheReadCount") && IsCacheKey("sdk.cacheWriteCount");
    }
  }

  lemma AppendKeepsLegal(events: seq<FlightEvent>, e: FlightEvent, runId: Guid, cursor: Option<UsageImportCursor>)
    requires EventsLegal(events, runId, cursor) && EventLegal(e, runId, cursor)
    requires !HasEvent(events, e.id)
    requires e.parentEventId.Some? ==> HasEvent(events, e.parentEventId.value)
    requires e.imported.Some? ==> e.imported.value.observationId !in ImportedIds(events)
    ensures EventsLegal(events + [e], runId, cursor)
  {
    var more := events + [e];
    assert more[..|events|] == events && more[..|events| + 1] == more;
    if e.parentEventId.Some? {
      var k :| 0 <= k < |events| && events[k].id == e.parentEventId.value;
      assert more[k].id == e.parentEventId.value;
    }
    assert ParentIsEarlier(more, |events|);
    WellOrderedOneMore(more, |events|);
    forall i | 0 <= i < |more| ensures LegalAt(more, i, runId, cursor) {
      assert i < |events| ==> LegalAt(events, i, runId, cursor);
    }
    forall i | 0 <= i < |events| && e.imported.Some? && events[i].imported.Some?
      ensures events[i].imported.value.observationId != e.imported.value.observationId
    {
      assert events[i].imported.value.observationId in ImportedIds(events);
    }
  }

  ghost predicate ProgressLegal(env: Environment, run: TraceRun, p: Progress) {
    && EventsLegal(p.events, run.id, CursorOf(run))
    && (forall i | 0 <= i < |p.events| :: MintedBy(env, p.minted, p.events[i].id))
    && ImportedEvents(p.events) == ImportedEvents(run.events)
  }

  lemma RecordOneKeepsLegal(env: Environment, run: TraceRun, p: Progress, r: RecordEventRequest)
    requires FreshIdentifiers(env) && RedactionCreatesNoCacheKey(env)
    requires ProgressLegal(env, run, p)
    requires RecordOne(env, run, p, r).Ok?
    ensures ProgressLegal(env, run, RecordOne(env, run, p, r).value)
  {
    var after := RecordOne(env, run, p, r).value;
    if after.events != p.events {
      var context := ContextOf(p.events);
      var id := env.newGuid(p.minted);
      RecordedEventIsLegal(env, run, r, id, context);
      var e := RecordedEvent(env, run, r, id, context);
      assert !HasEvent(p.events, id) by {
        forall i | 0 <= i < |p.events| ensures p.events[i].id != id {
          assert MintedBy(env, p.minted, p.events[i].id);
        }
      }
      AppendKeepsLegal(p.events, e, run.id, CursorOf(run));
      AppendKeepsMinted(env, p.events, e, p.minted);
      assert (p.events + [e])[..|p.events|] == p.events;
    }
  }

  lemma AppendKeepsMinted(env: Environment, events: seq<FlightEvent>, e: FlightEvent, minted: nat)
    requires FreshIdentifiers(env)
    requires forall i | 0 <= i < |events| :: MintedBy(env, minted, events[i].id)
    requires e.id == env.newGuid(minted)
    ensures forall i | 0 <= i < |events + [e]| :: MintedBy(env, minted + 1, (events + [e])[i].id)
  {
    forall i | 0 <= i < |events| ensures MintedBy(env, minted + 1, events[i].id) {
      MintedByMore(env, minted, minted + 1, events[i].id);
    }
    assert MintedBy(env, minted + 1, e.id);
  }

  lemma MintedByMore(env: Environment, minted: nat, more: nat, id: Guid)
    requires MintedBy(env, minted, id) && minted <= more
    ensures MintedBy(env, more, id)
  {
  }

  lemma {:induction false} RecordAllKeepsLegal(env: Environment, run: TraceRun, minted: nat,
                                               requests: seq<RecordEventRequest>)
    requires FreshIdentifiers(env) && RedactionCreatesNoCacheKey(env)
    requires Legal(run) && Minted(env, minted, run)
    requires RecordAll(env, run, minted, requests).Ok?
    ensures ProgressLegal(env, run, RecordAll(env, run, minted, requests).value)
    ensures RecordAll(env, run, minted, requests).value.minted >= minted
  {
    if requests != [] {
      RecordAllKeepsLegal(env, run, minted, requests[..|requests| - 1]);
      var p := RecordAll(env, run, minted, requests[..|requests| - 1]).value;
      RecordOneKeepsLegal(env, run, p, requests[|requests| - 1]);
    }
  }

  lemma RecordingKeepsLegal(env: Environment, run: TraceRun, minted: nat, requests: seq<RecordEventRequest>)
    requires FreshIdentifiers(env) && RedactionCreatesNoCacheKey(env)
    requires Legal(run) && Minted(env, minted, run)
    requires RecordAll(env, run, minted, requests).Ok?
    ensures var p := RecordAll(env, run, minted, requests).value;
            p.minted >= minted && Legal(run.(events := p.events)) && Minted(env, p.minted, run.(events := p.events))
  {
    RecordAllKeepsLegal(env, run, minted, requests);
    var p := RecordAll(env, run, minted, requests).value;
    MintedByMore(env, minted, p.minted, run.id);
    assert CursorOf(run.(events := p.events)) == CursorOf(run);
  }

  // ----- Importing -----

  // A prepared import: canonical observations under well-formed names.
  ghost predicate ImportReady(import_: Import) {
    && ValidObservations(import_.sourceKind, import_.observations)
    && (forall i | 0 <= i < |import_.observations| :: IsLowerHex(import_.observations[i].id))
    && Distinct(Ids(import_.observations))
    && 0 < |import_.observations|
    && IsHash(import_.sourceId) && IsHash(import_.revision) && IsHash(import_.snapshotHash)
    && IsSource(import_.sourceKind, import_.format)
    && SinceEpoch(import_.now)
  }

  lemma PreparedIsReady(env: Environment, sourceId: string, request: UsageImportRequest, now: Instant)
    requires HashesAreHashes(env)
    requires ValidImport(sourceId, request) && SinceEpoch(now)
    ensures ImportReady(Prepared(env, sourceId, request, now))
  {
    NormaliseKeepsValid(request.sourceKind, request.observations);
    NormaliseSorts(request.observations);
    LowerHash(sourceId);
    LowerHash(request.revision);
  }

  function NewCursor(import_: Import): UsageImportCursor {
    UsageImportCursor(import_.sourceId, import_.revision, import_.sourceKind, import_.format,
        Some(import_.snapshotHash))
  }

  lemma ObservedIsLegal(env: Environment, run: TraceRun, import_: Import, n: nat, previous: Option<FlightEvent>,
                        id: Guid)
    requires RedactionKeepsModelsValid(env) && ImportReady(import_)
    requires n < |import_.observations| && id != 0
    requires previous.Some? ==> previous.value.imported.Some? && SinceEpoch(previous.value.startedAt)
    requires previous.Some? ==> previous.value.imported.value.timestampMeaning in {"observed", "import-time"}
    ensures EventLegal(Observed(env, run, import_, import_.observations[n], previous, id), run.id,
            Some(NewCursor(import_)))
  {
    var o := import_.observations[n];
    assert ValidObservation(import_.sourceKind, o) && IsHash(o.id) && IsLowerHex(o.id);
    var e := Observed(env, run, import_, o, previous, id);
    if o.nanoAiu.Some? {
      assert e.reportedAiCredits.value == o.nanoAiu.value * UNITS_PER_NANO >= 0;
    }
    assert QualityMatches(AsObservation(e)) <==> QualityMatches(o);
    assert ValidObservation(import_.sourceKind, AsObservation(e));
  }

  lemma WithdrawnIsLegal(e: FlightEvent, runId: Guid, before: UsageImportCursor, after: UsageImportCursor)
    requires e.imported.Some? && EventLegal(e, runId, Some(before))
    requires after.sourceId == before.sourceId && after.sourceKind == before.sourceKind && after.format == before.format
    ensures EventLegal(Withdrawn(e), runId, Some(after))
  {
    assert QualityMatches(AsObservation(Withdrawn(e)));
  }

  // What the import callback has checked when it replaces the snapshot.
  ghost predicate Replacing(env: Environment, run: TraceRun, import_: Import) {
    && (CursorOf(run).Some? ==> SameSource(CursorOf(run).value, import_))
    && !HasForeignMetering(run.events)
    && |ImportedIds(run.events) + SnapshotIds(import_.observations)| <= MAXIMUM_OBSERVATIONS
  }

  lemma CorrectedIsLegal(env: Environment, run: TraceRun, import_: Import, i: nat)
    requires RedactionKeepsModelsValid(env) && ImportReady(import_)
    requires Legal(run) && Replacing(env, run, import_) && i < |run.events|
    ensures var e := Corrected(env, run, import_, run.events[i]);
            && EventLegal(e, run.id, Some(NewCursor(import_)))
            && e.id == run.events[i].id && e.parentEventId == run.events[i].parentEventId
            && (e.imported.Some? <==> run.events[i].imported.Some?)
            && (e.imported.Some? ==> e.imported.value.observationId == run.events[i].imported.value.observationId)
  {
    var e := run.events[i];
    assert LegalAt(run.events, i, run.id, CursorOf(run));
    if e.imported.Some? {
      var n := FindId(import_.observations, e.imported.value.observationId);
      if n < |import_.observations| {
        ObservedIsLegal(env, run, import_, n, Some(e), e.id);
      } else {
        WithdrawnIsLegal(e, run.id, CursorOf(run).value, NewCursor(import_));
      }
    } else {
      assert !ForeignMetering(e);
    }
  }

  lemma CorrectedEventsAreLegal(env: Environment, run: TraceRun, import_: Import)
    requires RedactionKeepsModelsValid(env) && ImportReady(import_)
    requires Legal(run) && Replacing(env, run, import_)
    ensures EventsLegal(CorrectedEvents(env, run, import_), run.id, Some(NewCursor(import_)))
    ensures ImportedIds(CorrectedEvents(env, run, import_)) == ImportedIds(run.events)
    ensures forall i | 0 <= i < |run.events| :: CorrectedEvents(env, run, import_)[i].id == run.events[i].id
  {
    var before, after := run.events, CorrectedEvents(env, run, import_);
    forall i | 0 <= i < |before|
      ensures LegalAt(after, i, run.id, Some(NewCursor(import_)))
      ensures after[i].id == before[i].id && after[i].parentEventId == before[i].parentEventId
      ensures after[i].imported.Some? <==> before[i].imported.Some?
      ensures after[i].imported.Some? ==>
              after[i].imported.value.observationId == before[i].imported.value.observationId
    {
      CorrectedIsLegal(env, run, import_, i);
    }
    SameShapeIsWellOrdered(before, after);
    SameShapeIsObserved(before, after);
  }

  lemma SameShapeIsWellOrdered(before: seq<FlightEvent>, after: seq<FlightEvent>)
    requires WellOrdered(before) && |after| == |before|
    requires forall i | 0 <= i < |before| ::
             after[i].id == before[i].id && after[i].parentEventId == before[i].parentEventId
    ensures WellOrdered(after)
  {
    forall i | 0 <= i < |after| ensures ParentIsEarlier(after, i) {
      assert ParentIsEarlier(before, i);
      if after[i].parentEventId.Some? {
        var k :| 0 <= k < i && before[k].id == before[i].parentEventId.value;
        assert after[k].id == after[i].parentEventId.value;
      }
    }
  }

  lemma SameShapeIsObserved(before: seq<FlightEvent>, after: seq<FlightEvent>)
    requires DistinctObservations(before) && |after| == |before|
    requires forall i | 0 <= i < |before| :: after[i].imported.Some? <==> before[i].imported.Some?
    requires forall i | 0 <= i < |before| && after[i].imported.Some? ::
      after[i].imported.value.observationId == before[i].imported.value.observationId
    ensures DistinctObservations(after) && ImportedIds(after) == ImportedIds(before)
  {
    forall id ensures id in ImportedIds(after) <==> id in ImportedIds(before) {
      if id in ImportedIds(after) {
        var i :| 0 <= i < |after| && after[i].imported.Some? && after[i].imported.value.observationId == id;
        assert before[i].imported.value.observationId == id;
      }
      if id in ImportedIds(before) {
        var i :| 0 <= i < |before| && before[i].imported.Some? && before[i].imported.value.observationId == id;
        assert after[i].imported.value.observationId == id;
      }
    }
  }

  // Where the added events come from: observation source[k] is new to the run and
  // becomes the k-th addition, under the k-th fresh identifier.
  ghost predicate AddedAt(env: Environment, run: TraceRun, import_: Import, minted: nat,
                          added: seq<FlightEvent>, source: seq<nat>, k: nat)
    requires k < |source| == |added|
  {
    && source[k] < |import_.observations|
    && import_.observations[source[k]].id !in ImportedIds(run.events)
    && added[k] == Observed(env, run, import_, import_.observations[source[k]], None, env.newGuid(minted + k))
  }

  ghost predicate AddedFrom(env: Environment, run: TraceRun, import_: Import, minted: nat, n: nat,
                            added: seq<FlightEvent>, source: seq<nat>) {
    && |source| == |added| && Increasing(source)
    && (forall k | 0 <= k < |source| :: source[k] < n)
    && (forall k | 0 <= k < |source| :: AddedAt(env, run, import_, minted, added, source, k))
  }

  lemma {:induction false} AdditionsHaveSources(env: Environment, run: TraceRun, import_: Import, minted: nat, n: nat)
    returns (source: seq<nat>)
    requires n <= |import_.observations|
    ensures AddedFrom(env, run, import_, minted, n, Additions(env, run, import_, minted, n), source)
    ensures forall j | 0 <= j < n && import_.observations[j].id !in ImportedIds(run.events) :: j in source
  {
    if n == 0 {
      source := [];
    } else {
      var earlier := Additions(env, run, import_, minted, n - 1);
      source := AdditionsHaveSources(env, run, import_, minted, n - 1);
      if import_.observations[n - 1].id !in ImportedIds(run.events) {
        source := AddSource(env, run, import_, minted, n, earlier, source);
      }
    }
  }

  lemma AddSource(env: Environment, run: TraceRun, import_: Import, minted: nat, n: nat, earlier: seq<FlightEvent>,
                  source: seq<nat>)
    returns (more: seq<nat>)
    requires 0 < n <= |import_.observations| && import_.observations[n - 1].id !in ImportedIds(run.events)
    requires AddedFrom(env, run, import_, minted, n - 1, earlier, source)
    ensures more == source + [n - 1]
    ensures AddedFrom(env, run, import_, minted, n, WithNext(env, run, import_, minted, n - 1, earlier), more)
  {
    more := source + [n - 1];
    var added := WithNext(env, run, import_, minted, n - 1, earlier);
    forall k | 0 <= k < |more| ensures AddedAt(env, run, import_, minted, added, more, k) {
      assert k < |source| ==> AddedAt(env, run, import_, minted, earlier, source, k);
    }
  }

  lemma ConcatLegal(base: seq<FlightEvent>, added: seq<FlightEvent>, runId: Guid, cursor: Option<UsageImportCursor>)
    requires EventsLegal(base, runId, cursor)
    requires forall k | 0 <= k < |added| :: LegalAt(added, k, runId, cursor) && added[k].parentEventId.None?
    requires DistinctEventIds(base + added) && DistinctObservations(base + added)
    ensures EventsLegal(base + added, runId, cursor)
  {
    var events := base + added;
    forall i | 0 <= i < |events| ensures LegalAt(events, i, runId, cursor) && ParentIsEarlier(events, i) {
      if i < |base| {
        assert LegalAt(base, i, runId, cursor) && ParentIsEarlier(base, i);
        if base[i].parentEventId.Some? {
          var k :| 0 <= k < i && base[k].id == base[i].parentEventId.value;
          assert events[k] == base[k];
        }
      } else {
        assert LegalAt(added, i - |base|, runId, cursor);
      }
    }
  }

  lemma AdditionsAreNew(env: Environment, run: TraceRun, import_: Import, minted: nat, base: seq<FlightEvent>,
                        added: seq<FlightEvent>, source: seq<nat>)
    requires FreshIdentifiers(env) && Distinct(Ids(import_.observations))
    requires AddedFrom(env, run, import_, minted, |import_.observations|, added, source)
    requires DistinctEventIds(base) && DistinctObservations(base) && ImportedIds(base) == ImportedIds(run.events)
    requires forall i | 0 <= i < |base| :: MintedBy(env, minted, base[i].id)
    ensures DistinctEventIds(base + added) && DistinctObservations(base + added)
  {
    var events := base + added;
    forall i, j | 0 <= i < j < |events| && j >= |base|
      ensures events[i].id != events[j].id
      ensures events[i].imported.Some? && events[j].imported.Some? ==>
              events[i].imported.value.observationId != events[j].imported.value.observationId
    {
      assert AddedAt(env, run, import_, minted, added, source, j - |base|);
      if i < |base| {
        assert MintedBy(env, minted, base[i].id);
        if base[i].imported.Some? { ObservedAt(base, i); }
      } else {
        assert AddedAt(env, run, import_, minted, added, source, i - |base|);
        assert Ids(import_.observations)[source[i - |base|]] != Ids(import_.observations)[source[j - |base|]];
      }
    }
  }

  lemma ObservedAt(events: seq<FlightEvent>, i: nat)
    requires i < |events| && events[i].imported.Some?
    ensures events[i].imported.value.observationId in ImportedIds(events)
  {
  }

  lemma WhereObserved(events: seq<FlightEvent>, id: string) returns (i: nat)
    requires id in ImportedIds(events)
    ensures i < |events| && IsObservation(events[i], id)
  {
    i :| 0 <= i < |events| && events[i].imported.Some? && events[i].imported.value.observationId == id;
  }

  lemma ImportedIdsOfConcat(base: seq<FlightEvent>, added: seq<FlightEvent>)
    ensures ImportedIds(base + added) == ImportedIds(base) + ImportedIds(added)
  {
    var events := base + added;
    forall id | id in ImportedIds(base) ensures id in ImportedIds(events) {
      var i := WhereObserved(base, id);
      ObservedAt(events, i);
    }
    forall id | id in ImportedIds(added) ensures id in ImportedIds(events) {
      var i := WhereObserved(added, id);
      ObservedAt(events, |base| + i);
    }
    forall id | id in ImportedIds(events) ensures id in ImportedIds(base) + ImportedIds(added) {
      var i := WhereObserved(events, id);
      if i < |base| { ObservedAt(base, i); } else { ObservedAt(added, i - |base|); }
    }
  }

  lemma AllObserved(env: Environment, run: TraceRun, import_: Import, minted: nat, added: seq<FlightEvent>,
                    source: seq<nat>)
    requires AddedFrom(env, run, import_, minted, |import_.observations|, added, source)
    requires forall j | 0 <= j < |import_.observations| && import_.observations[j].id !in ImportedIds(run.events) ::
             j in source
    ensures ImportedIds(run.events) + ImportedIds(added) == ImportedIds(run.events) + SnapshotIds(import_.observations)
  {
    forall id | id in ImportedIds(added) ensures id in SnapshotIds(import_.observations) {
      var k := WhereObserved(added, id);
      assert AddedAt(env, run, import_, minted, added, source, k);
    }
    forall id | id in SnapshotIds(import_.observations) && id !in ImportedIds(run.events)
        ensures id in ImportedIds(added) {
      var j :| 0 <= j < |import_.observations| && import_.observations[j].id == id;
      var k :| 0 <= k < |source| && source[k] == j;
      assert AddedAt(env, run, import_, minted, added, source, k);
      ObservedAt(added, k);
    }
  }

  lemma {:induction false} ImportedCount(events: seq<FlightEvent>)
    requires DistinctObservations(events)
    ensures |ImportedEvents(events)| == |ImportedIds(events)|
  {
    if events != [] {
      var init, last := events[..|events| - 1], events[|events| - 1];
      assert events == init + [last];
      PrefixIsDistinct(init, last);
      ImportedCount(init);
      ImportedIdsOneMore(init, last);
    }
  }

  lemma PrefixIsDistinct(init: seq<FlightEvent>, last: FlightEvent)
    requires DistinctObservations(init + [last])
    ensures DistinctObservations(init)
    ensures last.imported.Some? ==> last.imported.value.observationId !in ImportedIds(init)
  {
    var events := init + [last];
    assert events[|init|] == last && forall i | 0 <= i < |init| :: init[i] == events[i];
  }

  lemma ImportedIdsOneMore(init: seq<FlightEvent>, last: FlightEvent)
    ensures ImportedIds(init + [last]) ==
            ImportedIds(init) + if last.imported.Some? then {last.imported.value.observationId} else {}
  {
    var events := init + [last];
    ImportedIdsOfPrefix(events, |init|);
    assert events[..|init| + 1] == events && events[..|init|] == init;
  }

  lemma AdditionsAreLegal(env: Environment, run: TraceRun, import_: Import, minted: nat, added: seq<FlightEvent>,
                          source: seq<nat>)
    requires FreshIdentifiers(env) && RedactionKeepsModelsValid(env) && ImportReady(import_)
    requires AddedFrom(env, run, import_, minted, |import_.observations|, added, source)
    ensures forall k | 0 <= k < |added| ::
      LegalAt(added, k, run.id, Some(NewCursor(import_))) && added[k].parentEventId.None?
      && MintedBy(env, minted + |added|, added[k].id)
  {
    forall k | 0 <= k < |added|
      ensures LegalAt(added, k, run.id, Some(NewCursor(import_))) && added[k].parentEventId.None?
      ensures MintedBy(env, minted + |added|, added[k].id)
    {
      assert AddedAt(env, run, import_, minted, added, source, k);
      ObservedIsLegal(env, run, import_, source[k], None, env.newGuid(minted + k));
    }
  }

  lemma ImportKeepsLegal(env: Environment, run: TraceRun, minted: nat, import_: Import)
    requires FreshIdentifiers(env) && RedactionKeepsModelsValid(env) && ImportReady(import_)
    requires Legal(run) && Minted(env, minted, run)
    requires ImportInto(env, run, minted, import_).Replaced?
    ensures var outcome := ImportInto(env, run, minted, import_);
            outcome.minted >= minted && Legal(outcome.run) && Minted(env, outcome.minted, outcome.run)
  {
    var n := |import_.observations|;
    var source := AdditionsHaveSources(env, run, import_, minted, n);
    CorrectedEventsAreLegal(env, run, import_);
    ImportedRunIsLegal(env, run, minted, import_, CorrectedEvents(env, run, import_),
                       Additions(env, run, import_, minted, n), source);
  }

  lemma ImportedRunIsLegal(env: Environment, run: TraceRun, minted: nat, import_: Import,
                           base: seq<FlightEvent>, added: seq<FlightEvent>, source: seq<nat>)
    requires FreshIdentifiers(env) && RedactionKeepsModelsValid(env) && ImportReady(import_)
    requires run.id != 0 && Minted(env, minted, run)
    requires |ImportedIds(run.events) + SnapshotIds(import_.observations)| <= MAXIMUM_OBSERVATIONS
    requires AddedFrom(env, run, import_, minted, |import_.observations|, added, source)
    requires forall j | 0 <= j < |import_.observations| && import_.observations[j].id !in ImportedIds(run.events) ::
             j in source
    requires EventsLegal(base, run.id, Some(NewCursor(import_))) && ImportedIds(base) == ImportedIds(run.events)
    requires |base| == |run.events| && forall i | 0 <= i < |base| :: base[i].id == run.events[i].id
    ensures var after := run.(events := base + added, usageImports := Some([NewCursor(import_)]));
            Legal(after) && Minted(env, minted + |added|, after)
  {
    AdditionsAreLegal(env, run, import_, minted, added, source);
    AdditionsAreNew(env, run, import_, minted, base, added, source);
    ConcatLegal(base, added, run.id, Some(NewCursor(import_)));
    ConcatMinted(env, minted, base, added);
    MintedByMore(env, minted, minted + |added|, run.id);
    CountAfterImport(env, run, minted, import_, base, added, source);
  }

  lemma CountAfterImport(env: Environment, run: TraceRun, minted: nat, import_: Import,
                         base: seq<FlightEvent>, added: seq<FlightEvent>, source: seq<nat>)
    requires 0 < |import_.observations|
    requires |ImportedIds(run.events) + SnapshotIds(import_.observations)| <= MAXIMUM_OBSERVATIONS
    requires AddedFrom(env, run, import_, minted, |import_.observations|, added, source)
    requires forall j | 0 <= j < |import_.observations| && import_.observations[j].id !in ImportedIds(run.events) ::
             j in source
    requires DistinctObservations(base + added) && ImportedIds(base) == ImportedIds(run.events)
    ensures 0 < |ImportedEvents(base + added)| <= MAXIMUM_OBSERVATIONS
    ensures ImportedIds(base + added) == ImportedIds(run.events) + SnapshotIds(import_.observations)
  {
    ImportedIdsOfConcat(base, added);
    AllObserved(env, run, import_, minted, added, source);
    ImportedCount(base + added);
    assert import_.observations[0].id in ImportedIds(base + added);
  }

  lemma ConcatMinted(env: Environment, minted: nat, base: seq<FlightEvent>, added: seq<FlightEvent>)
    requires forall i | 0 <= i < |base| :: MintedBy(env, minted, base[i].id)
    requires forall i | 0 <= i < |added| :: MintedBy(env, minted + |added|, added[i].id)
    ensures forall i | 0 <= i < |base + added| :: MintedBy(env, minted + |added|, (base + added)[i].id)
  {
  }
}
