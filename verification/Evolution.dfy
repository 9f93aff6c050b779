/**
 How a stored run may change: its events only grow at the end, corrections keep
 identity, place and parent, task attribution is never disturbed by an import, and
 a replayed batch of spans finds what it recorded the first time.
 */
module Evolution {
  import opened Results
  import opened Text
  import opened Trace
  import opened Policy
  import opened TaskContexts
  import opened Recording
  import opened Decoding
  import opened Importing
  import opened RunInvariants
  import opened Retention
  import opened Stores
  import opened Service

  // ----- One event, one run -----

  // What an event keeps: everything, unless it was imported.
  ghost predicate EvolvedAt(before: seq<FlightEvent>, after: seq<FlightEvent>, i: int)
    requires 0 <= i < |before| <= |after|
  {
    && after[i].id == before[i].id && after[i].parentEventId == before[i].parentEventId
    && SameAttribution(before[i], after[i])
    && after[i].traceId == before[i].traceId
    && (after[i].imported.Some? <==> before[i].imported.Some?)
    && (before[i].imported.None? ==> after[i] == before[i])
    && (before[i].imported.Some? ==> after[i].imported.value.observationId == before[i].imported.value.observationId)
  }

  ghost predicate EventsEvolve(before: seq<FlightEvent>, after: seq<FlightEvent>) {
    |before| <= |after| && forall i | 0 <= i < |before| :: EvolvedAt(before, after, i)
  }

  ghost predicate Evolves(before: TraceRun, after: TraceRun) {
    && after.id == before.id && after.recordingMode == before.recordingMode && after.startedAt == before.startedAt
    && EventsEvolve(before.events, after.events)
  }

  lemma EvolvesTransitively(a: TraceRun, b: TraceRun, c: TraceRun)
    requires Evolves(a, b) && Evolves(b, c)
    ensures Evolves(a, c)
  {
    forall i | 0 <= i < |a.events| ensures EvolvedAt(a.events, c.events, i) {
      assert EvolvedAt(a.events, b.events, i) && EvolvedAt(b.events, c.events, i);
    }
  }

  lemma {:induction false} RecordAllAppends(env: Environment, run: TraceRun, minted: nat,
                                            requests: seq<RecordEventRequest>)
    requires RecordAll(env, run, minted, requests).Ok?
    ensures var p := RecordAll(env, run, minted, requests).value;
            run.events <= p.events && |p.recorded| == |requests|
  {
    if requests != [] {
      RecordAllAppends(env, run, minted, requests[..|requests| - 1]);
    }
  }

  lemma CorrectedEvolves(env: Environment, run: TraceRun, import_: Import, i: nat)
    requires Legal(run) && i < |run.events|
    ensures EvolvedAt(run.events, CorrectedEvents(env, run, import_), i)
  {
    var e := run.events[i];
    assert LegalAt(run.events, i, run.id, CursorOf(run));
    if e.imported.Some? {
      assert e.attributes.None? && e.parentTaskId.None?;
    }
  }

  // A correction with a time of its own takes it; one without keeps the time and what the
  // time was said to mean, as a withdrawal does.
  lemma CorrectionsKeepUnknownTimes(env: Environment, run: TraceRun, import_: Import, i: nat)
    requires i < |run.events| && run.events[i].imported.Some?
    ensures var before, after := run.events[i], CorrectedEvents(env, run, import_)[i];
            var n := FindId(import_.observations, before.imported.value.observationId);
            && after.imported.Some?
            && (if n < |import_.observations| && import_.observations[n].timestamp.Some? then
                  Some(after.startedAt) == import_.observations[n].timestamp
                      && after.imported.value.timestampMeaning == "observed"
                else
                  after.startedAt == before.startedAt
                  && after.imported.value.timestampMeaning == before.imported.value.timestampMeaning)
  {
    assert CorrectedEvents(env, run, import_)[i] == Corrected(env, run, import_, run.events[i]);
  }

  lemma {:induction false} AdditionsAreUnattributed(env: Environment, run: TraceRun, import_: Import, minted: nat,
                                                    n: nat)
    requires n <= |import_.observations|
    ensures forall e | e in Additions(env, run, import_, minted, n) ::
            e.taskId.None? && e.imported.Some? && e.parentEventId.None?
  {
    if n > 0 {
      AdditionsAreUnattributed(env, run, import_, minted, n - 1);
    }
  }

  lemma ImportEvolves(env: Environment, run: TraceRun, minted: nat, import_: Import)
    requires Legal(run)
    ensures Evolves(run, ImportedRun(env, run, minted, import_))
  {
    var corrected := CorrectedEvents(env, run, import_);
    var after := ImportedRun(env, run, minted, import_).events;
    forall i | 0 <= i < |run.events| ensures EvolvedAt(run.events, after, i) {
      CorrectedEvolves(env, run, import_, i);
      assert after[i] == corrected[i];
    }
  }

  lemma PrefixEvolves(events: seq<FlightEvent>, more: seq<FlightEvent>)
    requires events <= more
    ensures EventsEvolve(events, more)
  {
  }

  lemma AppendingEvolves(run: TraceRun, events: seq<FlightEvent>)
    requires run.events <= events
    ensures Evolves(run, run.(events := events))
  {
    PrefixEvolves(run.events, events);
  }

  lemma ImportOutcomeEvolves(env: Environment, run: TraceRun, minted: nat, import_: Import, outcome: ImportOutcome)
    requires Legal(run) && outcome == ImportInto(env, run, minted, import_)
    ensures outcome.Replaced? ==> Evolves(run, outcome.run)
  {
    ImportEvolves(env, run, minted, import_);
  }

  lemma CompletingEvolves(run: TraceRun, endedAt: Instant)
    ensures Evolves(run, run.(endedAt := Some(endedAt)))
  {
    PrefixEvolves(run.events, run.events);
  }

  lemma DecideEvolves(env: Environment, minted: nat, op: Operation, run: TraceRun, verdict: Verdict)
    requires !op.StartRun? && Legal(run) && verdict == Decide(env, minted, op, run)
    ensures verdict.change.Replace? ==> Evolves(run, verdict.change.run)
  {
    match op
    case RecordEvents(_, requests) =>
      var recorded := RecordAll(env, run, minted, requests);
      if recorded.Ok? {
        RecordAllAppends(env, run, minted, requests);
        AppendingEvolves(run, recorded.value.events);
      }
    case ImportUsage(_, sourceId, request, now) =>
      var import_ := Prepared(env, sourceId, request, now);
      ImportOutcomeEvolves(env, run, minted, import_, ImportInto(env, run, minted, import_));
    case CompleteRun(_, endedAt) =>
      CompletingEvolves(run, endedAt);
  }

  // ----- One step, one history -----

  lemma EvolvesToItself(run: TraceRun)
    ensures Evolves(run, run)
  {
  }

  lemma StepEvolves(env: Environment, limit: nat, s: MemoryService, op: Operation, id: Guid)
    requires Trusted(env) && Invariant(env, limit, s)
    requires id in s.runs && id in MemoryStep(env, limit, s, op).0.runs
    ensures Evolves(s.runs[id], MemoryStep(env, limit, s, op).0.runs[id])
  {
    EvolvesToItself(s.runs[id]);
    StepRun(env, limit, s, op, id, MemoryStep(env, limit, s, op).0);
    if Admissible(op) && Rewrites(env, s, op, id) {
      assert RunOk(env, s.minted, s.runs, id);
      DecideEvolves(env, s.minted, op, s.runs[id], Decide(env, s.minted, op, s.runs[id]));
    }
  }

  // A step brings no run back under an identifier that was drawn before.
  lemma StepBringsNoneBack(env: Environment, limit: nat, s: MemoryService, op: Operation, id: Guid)
    requires Trusted(env) && Invariant(env, limit, s)
    requires MintedBy(env, s.minted, id) && id !in s.runs
    ensures id !in MemoryStep(env, limit, s, op).0.runs
  {
    var after := MemoryStep(env, limit, s, op).0;
    if id in after.runs { StepRun(env, limit, s, op, id, after); }
  }

  // A run that was stored at some point and is gone at a later one never comes back.
  lemma {:induction false} GoneStaysGone(env: Environment, limit: nat, history: seq<Operation>, m: nat, n: nat,
                                         id: Guid)
    requires Trusted(env) && AllTimely(history) && m <= n <= |history|
    requires id in MemoryAfter(env, limit, history[..m]).runs && id !in MemoryAfter(env, limit, history[..n]).runs
    ensures id !in MemoryAfter(env, limit, history).runs
    decreases |history|
  {
    if n == |history| {
      assert history[..n] == history;
    } else {
      var earlier, op := history[..|history| - 1], history[|history| - 1];
      assert earlier[..m] == history[..m] && earlier[..n] == history[..n];
      GoneStaysGone(env, limit, earlier, m, n, id);
      HistoryEvolves(env, limit, earlier, m, id);
      HistoryKeepsInvariant(env, limit, earlier);
      StepBringsNoneBack(env, limit, MemoryAfter(env, limit, earlier), op, id);
    }
  }

  // From any point of a history on, a run that is still stored has only evolved.
  lemma {:induction false} HistoryEvolves(env: Environment, limit: nat, history: seq<Operation>, n: nat, id: Guid)
    requires Trusted(env) && AllTimely(history) && n <= |history|
    requires id in MemoryAfter(env, limit, history[..n]).runs
    ensures var s := MemoryAfter(env, limit, history);
            && MintedBy(env, s.minted, id)
            && (id in s.runs ==> Evolves(MemoryAfter(env, limit, history[..n]).runs[id], s.runs[id]))
    decreases |history|
  {
    HistoryKeepsInvariant(env, limit, history);
    if n == |history| {
      assert history[..n] == history;
      var s := MemoryAfter(env, limit, history);
      assert RunOk(env, s.minted, s.runs, id);
    } else {
      var earlier, op := history[..|history| - 1], history[|history| - 1];
      assert earlier[..n] == history[..n];
      HistoryEvolves(env, limit, earlier, n, id);
      HistoryKeepsInvariant(env, limit, earlier);
      var s := MemoryAfter(env, limit, earlier);
      StepKeepsInvariant(env, limit, s, op);
      MintedByMore(env, s.minted, MemoryStep(env, limit, s, op).0.minted, id);
      if id !in s.runs {
        StepBringsNoneBack(env, limit, s, op, id);
      } else if id in MemoryAfter(env, limit, history).runs {
        StepEvolves(env, limit, s, op, id);
        EvolvesTransitively(MemoryAfter(env, limit, history[..n]).runs[id], s.runs[id],
            MemoryAfter(env, limit, history).runs[id]);
      }
    }
  }

  function EventIds(events: seq<FlightEvent>): (r: seq<Guid>)
    ensures |r| == |events| && forall i | 0 <= i < |r| :: r[i] == events[i].id
  {
    seq(|events|, i requires 0 <= i < |events| => events[i].id)
  }

  // The event ids of a run only grow at the end, and a parent reference taken at any
  // point of a history still points at the same earlier event at any later point.
  lemma EventIdsOnlyGrow(env: Environment, limit: nat, history: seq<Operation>, n: nat, id: Guid, child: nat)
    requires Trusted(env) && AllTimely(history) && n <= |history|
    requires id in MemoryAfter(env, limit, history[..n]).runs && id in MemoryAfter(env, limit, history).runs
    requires child < |MemoryAfter(env, limit, history[..n]).runs[id].events|
    ensures var before, after :=
            MemoryAfter(env, limit, history[..n]).runs[id].events, MemoryAfter(env, limit, history).runs[id].events;
            && EventIds(before) <= EventIds(after)
            && after[child].parentEventId == before[child].parentEventId
            && (after[child].parentEventId.Some? ==>
                  exists k | 0 <= k < child :: before[k].id == after[k].id == after[child].parentEventId.value)
  {
    HistoryEvolves(env, limit, history, n, id);
    var before, after := MemoryAfter(env, limit, history[..n]).runs[id].events,
        MemoryAfter(env, limit, history).runs[id].events;
    forall i | 0 <= i < |before|
        ensures after[i].id == before[i].id && after[i].parentEventId == before[i].parentEventId {
      assert EvolvedAt(before, after, i);
    }
    HistoryKeepsInvariant(env, limit, history[..n]);
    var s := MemoryAfter(env, limit, history[..n]);
    assert RunOk(env, s.minted, s.runs, id);
    assert ParentIsEarlier(before, child);
  }

  // ----- Importing never moves a task -----

  lemma ImportKeepsTaskContext(env: Environment, run: TraceRun, minted: nat, import_: Import)
    requires Legal(run)
    ensures ContextOf(ImportedRun(env, run, minted, import_).events) == ContextOf(run.events)
  {
    ImportEvolves(env, run, minted, import_);
    var after := ImportedRun(env, run, minted, import_).events;
    forall i | 0 <= i < |run.events| ensures SameAttribution(run.events[i], after[i]) {
      assert EvolvedAt(run.events, after, i);
    }
    var n := |import_.observations|;
    AdditionsAreUnattributed(env, run, import_, minted, n);
    forall i | |run.events| <= i < |after| ensures after[i].taskId.None? {
      assert after[i] in Additions(env, run, import_, minted, n);
    }
    ContextDependsOnAttribution(run.events, after);
  }

  // ----- Replaying a batch of ingested spans -----

  // An ingested batch: every request names its trace and span in lower-case hexadecimal.
  ghost predicate IngestedBatch(requests: seq<RecordEventRequest>) {
    forall j | 0 <= j < |requests| :: IngestedSpan(requests[j])
  }

  predicate IngestedSpan(r: RecordEventRequest) {
    IsReplayable(r) && IsLowerHex(r.traceId.value) && IsLowerHex(r.spanId.value)
  }

  // Request j was answered with the first event of its span.
  ghost predicate AnsweredAt(events: seq<FlightEvent>, requests: seq<RecordEventRequest>, recorded: seq<FlightEvent>,
                             j: int)
    requires 0 <= j < |requests| == |recorded|
  {
    var found := FirstSpan(events, requests[j].traceId, requests[j].spanId);
    ValidRecord(requests[j]) && found < |events| && recorded[j] == events[found]
  }

  ghost predicate Answered(events: seq<FlightEvent>, requests: seq<RecordEventRequest>, recorded: seq<FlightEvent>) {
    |requests| == |recorded| && forall j | 0 <= j < |requests| :: AnsweredAt(events, requests, recorded, j)
  }

  lemma FirstSpanIsStable(before: seq<FlightEvent>, after: seq<FlightEvent>, traceId: Option<string>,
                          spanId: Option<string>)
    requires traceId.Some? && EventsEvolve(before, after) && TracedAreRecorded(before)
    requires FirstSpan(before, traceId, spanId) < |before|
    ensures FirstSpan(after, traceId, spanId) == FirstSpan(before, traceId, spanId)
    ensures after[FirstSpan(after, traceId, spanId)] == before[FirstSpan(before, traceId, spanId)]
  {
    var i := FirstSpan(before, traceId, spanId);
    assert EvolvedAt(before, after, i);
    forall k | 0 <= k < i ensures !(after[k].traceId == traceId && after[k].spanId == spanId) {
      assert EvolvedAt(before, after, k);
    }
  }

  // Only recorded events carry a trace.
  ghost predicate TracedAreRecorded(events: seq<FlightEvent>) {
    forall i | 0 <= i < |events| && events[i].traceId.Some? :: events[i].imported.None?
  }

  lemma LegalTracedAreRecorded(events: seq<FlightEvent>, runId: Guid, cursor: Option<UsageImportCursor>)
    requires EventsLegal(events, runId, cursor)
    ensures TracedAreRecorded(events)
  {
    forall i | 0 <= i < |events| && events[i].traceId.Some? ensures events[i].imported.None? {
      assert LegalAt(events, i, runId, cursor);
    }
  }

  lemma AnswersAreStable(before: seq<FlightEvent>, after: seq<FlightEvent>, requests: seq<RecordEventRequest>,
                         recorded: seq<FlightEvent>)
    requires IngestedBatch(requests) && Answered(before, requests, recorded)
    requires EventsEvolve(before, after) && TracedAreRecorded(before)
    ensures Answered(after, requests, recorded)
  {
    forall j | 0 <= j < |requests| ensures AnsweredAt(after, requests, recorded, j) {
      assert AnsweredAt(before, requests, recorded, j) && IngestedSpan(requests[j]);
      FirstSpanIsStable(before, after, requests[j].traceId, requests[j].spanId);
    }
  }

  lemma RecordOneAnswers(env: Environment, run: TraceRun, p: Progress, r: RecordEventRequest)
    requires RedactionKeepsHex(env) && IngestedSpan(r)
    requires RecordOne(env, run, p, r).Ok?
    ensures var after := RecordOne(env, run, p, r).value;
            var found := FirstSpan(after.events, r.traceId, r.spanId);
            && ValidRecord(r) && found < |after.events|
            && |after.recorded| == |p.recorded| + 1 && after.recorded[..|p.recorded|] == p.recorded
            && after.recorded[|p.recorded|] == after.events[found]
            && p.events <= after.events
  {
    var after := RecordOne(env, run, p, r).value;
    if FirstSpan(p.events, r.traceId, r.spanId) == |p.events| {
      var evt := after.events[|p.events|];
      assert evt.traceId == r.traceId && evt.spanId == r.spanId;
    }
  }

  // One more request: the earlier answers stand and the new one is given.
  lemma AnswerOneMore(env: Environment, run: TraceRun, before: Progress, requests: seq<RecordEventRequest>,
                      after: Progress)
    requires RedactionKeepsHex(env) && IngestedBatch(requests) && requests != []
    requires TracedAreRecorded(before.events)
    requires Answered(before.events, requests[..|requests| - 1], before.recorded)
    requires RecordOne(env, run, before, requests[|requests| - 1]) == Ok(after)
    ensures Answered(after.events, requests, after.recorded)
  {
    var n := |requests| - 1;
    assert IngestedSpan(requests[n]);
    RecordOneAnswers(env, run, before, requests[n]);
    ExtendAnswers(before, requests, after);
  }

  lemma ExtendAnswers(before: Progress, requests: seq<RecordEventRequest>, after: Progress)
    requires IngestedBatch(requests) && requests != [] && TracedAreRecorded(before.events)
    requires Answered(before.events, requests[..|requests| - 1], before.recorded)
    requires before.events <= after.events && |after.recorded| == |requests|
    requires after.recorded[..|requests| - 1] == before.recorded
    requires AnsweredAt(after.events, requests, after.recorded, |requests| - 1)
    ensures Answered(after.events, requests, after.recorded)
  {
    var n := |requests| - 1;
    PrefixEvolves(before.events, after.events);
    assert forall j | 0 <= j < n :: IngestedSpan(requests[..n][j]) by {
      forall j | 0 <= j < n ensures IngestedSpan(requests[..n][j]) { assert IngestedSpan(requests[j]); }
    }
    AnswersAreStable(before.events, after.events, requests[..n], before.recorded);
    forall j | 0 <= j < |requests| ensures AnsweredAt(after.events, requests, after.recorded, j) {
      if j < n {
        assert AnsweredAt(after.events, requests[..n], before.recorded, j);
        assert after.recorded[..n][j] == after.recorded[j];
      }
    }
  }

  lemma {:induction false} RecordingAnswers(env: Environment, run: TraceRun, minted: nat,
                                            requests: seq<RecordEventRequest>)
    requires Trusted(env) && RedactionKeepsHex(env) && IngestedBatch(requests)
    requires Legal(run) && Minted(env, minted, run)
    requires RecordAll(env, run, minted, requests).Ok?
    ensures var p := RecordAll(env, run, minted, requests).value; Answered(p.events, requests, p.recorded)
  {
    if requests != [] {
      var n := |requests| - 1;
      forall j | 0 <= j < n ensures IngestedSpan(requests[..n][j]) { assert IngestedSpan(requests[j]); }
      RecordingAnswers(env, run, minted, requests[..n]);
      RecordAllKeepsLegal(env, run, minted, requests[..n]);
      var before := RecordAll(env, run, minted, requests[..n]).value;
      LegalTracedAreRecorded(before.events, run.id, CursorOf(run));
      AnswerOneMore(env, run, before, requests, RecordAll(env, run, minted, requests).value);
    }
  }

  lemma AnsweredRecordsNothing(env: Environment, run: TraceRun, p: Progress, r: RecordEventRequest, answer: FlightEvent)
    requires IngestedSpan(r) && ValidRecord(r)
    requires FirstSpan(p.events, r.traceId, r.spanId) < |p.events|
    requires answer == p.events[FirstSpan(p.events, r.traceId, r.spanId)]
    ensures RecordOne(env, run, p, r) == Ok(Progress(p.events, p.recorded + [answer], p.minted))
  {
  }

  lemma AnsweredPrefix(events: seq<FlightEvent>, requests: seq<RecordEventRequest>, recorded: seq<FlightEvent>, n: nat)
    requires IngestedBatch(requests) && Answered(events, requests, recorded) && n <= |requests|
    ensures IngestedBatch(requests[..n]) && Answered(events, requests[..n], recorded[..n])
  {
    forall j | 0 <= j < n ensures IngestedSpan(requests[..n][j])
        && AnsweredAt(events, requests[..n], recorded[..n], j) {
      assert IngestedSpan(requests[j]) && AnsweredAt(events, requests, recorded, j);
    }
  }

  lemma AnsweredLast(env: Environment, run: TraceRun, minted: nat, requests: seq<RecordEventRequest>,
                     recorded: seq<FlightEvent>)
    requires IngestedBatch(requests) && Answered(run.events, requests, recorded) && requests != []
    ensures RecordOne(env, run, Progress(run.events, recorded[..|recorded| - 1], minted), requests[|requests| - 1]) ==
            Ok(Progress(run.events, recorded, minted))
  {
    var n := |requests| - 1;
    assert IngestedSpan(requests[n]) && AnsweredAt(run.events, requests, recorded, n);
    AnsweredRecordsNothing(env, run, Progress(run.events, recorded[..n], minted), requests[n], recorded[n]);
    assert recorded == recorded[..n] + [recorded[n]];
  }

  // A batch that is fully answered already is answered again and records nothing.
  lemma {:induction false} AnsweredBatchRecordsNothing(env: Environment, run: TraceRun, minted: nat,
                                                       requests: seq<RecordEventRequest>, recorded: seq<FlightEvent>)
    requires IngestedBatch(requests) && Answered(run.events, requests, recorded)
    ensures RecordAll(env, run, minted, requests) == Ok(Progress(run.events, recorded, minted))
  {
    if requests == [] {
      assert recorded == [];
    } else {
      AnsweredPrefix(run.events, requests, recorded, |requests| - 1);
      AnsweredBatchRecordsNothing(env, run, minted, requests[..|requests| - 1], recorded[..|requests| - 1]);
      AnsweredLast(env, run, minted, requests, recorded);
    }
  }

  // ----- Where a recorded batch ends up -----

  // Writing a run under the key it already has leaves nothing to prune.
  lemma SameKeyStaysStored(runs: Runs, limit: nat, run: TraceRun)
    requires Keyed(runs) && WithinLimit(runs, limit) && run.id in runs
    requires run.endedAt == runs[run.id].endedAt && run.startedAt == runs[run.id].startedAt
    ensures Retained(runs[run.id := run], limit) == runs[run.id := run]
  {
    var after := runs[run.id := run];
    forall k | k in CompletedKeys(after) ensures k in CompletedKeys(runs) {
      var id :| id in after && IsCompleted(after, id) && KeyOf(after, id) == k;
      assert IsCompleted(runs, id) && KeyOf(runs, id) == k;
    }
    SubsetCount(CompletedKeys(after), CompletedKeys(runs));
    NothingToPrune(after, limit);
  }

  // After an accepted batch the run is stored with its events.
  lemma RecordedIsStored(env: Environment, limit: nat, s: MemoryService, op: Operation)
    requires Trusted(env) && Invariant(env, limit, s)
    requires op.RecordEvents? && MemoryStep(env, limit, s, op).1.Recorded?
    ensures op.runId in s.runs && RecordAll(env, s.runs[op.runId], s.minted, op.requests).Ok?
    ensures var (after, reply) := MemoryStep(env, limit, s, op);
            var p := RecordAll(env, s.runs[op.runId], s.minted, op.requests).value;
            && op.runId in after.runs && after.runs[op.runId].events == p.events && reply == Recorded(p.recorded)
  {
    var id := op.runId;
    assert RunOk(env, s.minted, s.runs, id);
    InvariantIsKeyed(env, limit, s);
    var run := s.runs[id];
    var r := RecordAll(env, run, s.minted, op.requests);
    StepIsApplied(env, limit, s, op, Decide(env, s.minted, op, run));
    assert r.Ok?;
    RecordAllAppends(env, run, s.minted, op.requests);
    if |r.value.events| != |run.events| {
      SameKeyStaysStored(s.runs, limit, run.(events := r.value.events));
    }
  }

  // ----- Replaying at any later time -----

  // Replaying an accepted batch at any later time while its run is stored returns the
  // same events in the same order and leaves the whole store unchanged.
  lemma ReplayIsIdempotent(env: Environment, limit: nat, history: seq<Operation>, n: nat)
    requires Trusted(env) && RedactionKeepsHex(env) && AllTimely(history) && n < |history|
    requires history[n].RecordEvents? && IngestedBatch(history[n].requests)
    requires MemoryStep(env, limit, MemoryAfter(env, limit, history[..n]), history[n]).1.Recorded?
    requires history[n].runId in MemoryAfter(env, limit, history).runs
    ensures MemoryStep(env, limit, MemoryAfter(env, limit, history), history[n]) ==
            (MemoryAfter(env, limit, history),
                MemoryStep(env, limit, MemoryAfter(env, limit, history[..n]), history[n]).1)
  {
    var op := history[n];
    var s := MemoryAfter(env, limit, history[..n]);
    HistoryKeepsInvariant(env, limit, history[..n]);
    RecordedIsStored(env, limit, s, op);
    assert history[..n + 1][..n] == history[..n];
    assert MemoryAfter(env, limit, history[..n + 1]) == MemoryStep(env, limit, s, op).0;
    HistoryEvolves(env, limit, history, n + 1, op.runId);
    HistoryKeepsInvariant(env, limit, history);
    assert RunOk(env, s.minted, s.runs, op.runId);
    var p := RecordAll(env, s.runs[op.runId], s.minted, op.requests).value;
    StillAnswered(env, s.minted, s.runs[op.runId], op.requests, MemoryAfter(env, limit, history).runs[op.runId].events);
    ReplayStep(env, limit, MemoryAfter(env, limit, history), op, p.recorded);
  }

  lemma StillAnswered(env: Environment, minted: nat, run: TraceRun, requests: seq<RecordEventRequest>,
                      later: seq<FlightEvent>)
    requires Trusted(env) && RedactionKeepsHex(env) && IngestedBatch(requests)
    requires Legal(run) && Minted(env, minted, run) && RecordAll(env, run, minted, requests).Ok?
    requires EventsEvolve(RecordAll(env, run, minted, requests).value.events, later)
    ensures Answered(later, requests, RecordAll(env, run, minted, requests).value.recorded)
  {
    var p := RecordAll(env, run, minted, requests).value;
    RecordingAnswers(env, run, minted, requests);
    RecordAllKeepsLegal(env, run, minted, requests);
    LegalTracedAreRecorded(p.events, run.id, CursorOf(run));
    AnswersAreStable(p.events, later, requests, p.recorded);
  }

  lemma ReplayStep(env: Environment, limit: nat, s: MemoryService, op: Operation, recorded: seq<FlightEvent>)
    requires op.RecordEvents? && op.runId in s.runs
    requires IngestedBatch(op.requests) && Answered(s.runs[op.runId].events, op.requests, recorded)
    ensures MemoryStep(env, limit, s, op) == (s, Recorded(recorded))
  {
    AnsweredBatchRecordsNothing(env, s.runs[op.runId], s.minted, op.requests, recorded);
    StepIsApplied(env, limit, s, op, Decide(env, s.minted, op, s.runs[op.runId]));
  }

  // ----- Refusals -----

  lemma RefusalDecides(env: Environment, minted: nat, op: Operation, run: TraceRun, verdict: Verdict)
    requires !op.StartRun? && verdict == Decide(env, minted, op, run)
    ensures verdict.change.Refuse? <==> verdict.reply.Rejected?
    ensures !verdict.reply.NotFound?
    ensures verdict.change.Refuse? ==> verdict.minted == minted
    ensures verdict.change.Replace? ==> verdict.change.run.id == run.id
  {
    DecideKeepsId(env, minted, op, run, verdict);
  }

  // A refused operation changes nothing, not even the supply of identifiers; and an
  // operation on a stored run is never answered as if the run were unknown.
  lemma RefusalChangesNothing(env: Environment, limit: nat, s: MemoryService, op: Operation)
    requires Invariant(env, limit, s)
    ensures var (after, reply) := MemoryStep(env, limit, s, op);
            && (reply.Rejected? || reply.NotFound? ==> after == s)
            && (reply.NotFound? <==> Admissible(op) && !op.StartRun? && op.runId !in s.runs)
  {
    InvariantIsKeyed(env, limit, s);
    if Admissible(op) && !op.StartRun? && op.runId in s.runs {
      var verdict := Decide(env, s.minted, op, s.runs[op.runId]);
      RefusalDecides(env, s.minted, op, s.runs[op.runId], verdict);
      StepIsApplied(env, limit, s, op, verdict);
    }
  }
}
