/**
 What a recording mode keeps out of a run: over any history a metadata-only run holds no
 inputs, outputs or objectives and no attribute outside the metadata keys; and which task
 an event is recorded under.
 */
module Privacy {
  import opened Results
  import Text
  import opened Trace
  import opened Policy
  import opened TaskContexts
  import opened Recording
  import opened Importing
  import opened Service

  ghost predicate HoldsNoContent(env: Environment, e: FlightEvent) {
    && e.input.None? && e.output.None? && e.details.objective.None?
    && (e.attributes.Some? ==>
          forall key | key in e.attributes.value :: exists name :: IsMetadataKey(name) && key == env.redact(name))
  }

  ghost predicate NoContent(env: Environment, run: TraceRun) {
    run.recordingMode == MetadataOnly ==> forall i | 0 <= i < |run.events| :: HoldsNoContent(env, run.events[i])
  }

  lemma RecordedEventHoldsNoContent(env: Environment, run: TraceRun, r: RecordEventRequest, id: Guid,
                                    context: TaskContext)
    requires run.recordingMode == MetadataOnly
    ensures HoldsNoContent(env, RecordedEvent(env, run, r, id, context))
  {
    if r.attributes.Some? {
      forall key | key in ProtectedAttributes(env, MetadataOnly, r.attributes.value)
        ensures exists name :: IsMetadataKey(name) && key == env.redact(name)
      {
        KeptAttributesAreAllowed(env, MetadataOnly, r.attributes.value, key);
        var i :| 0 <= i < |r.attributes.value| && KeptFrom(env, MetadataOnly, r.attributes.value, i, key,
                                                           ProtectedAttributes(env, MetadataOnly,
                                                               r.attributes.value)[key]);
        assert IsMetadataKey(r.attributes.value[i].0);
      }
    }
  }

  lemma {:induction false} RecordingAddsNoContent(env: Environment, run: TraceRun, minted: nat,
                                                  requests: seq<RecordEventRequest>)
    requires run.recordingMode == MetadataOnly && NoContent(env, run) && RecordAll(env, run, minted, requests).Ok?
    ensures forall e | e in RecordAll(env, run, minted, requests).value.events :: HoldsNoContent(env, e)
  {
    if requests != [] {
      var n := |requests| - 1;
      RecordingAddsNoContent(env, run, minted, requests[..n]);
      var p := RecordAll(env, run, minted, requests[..n]).value;
      RecordedEventHoldsNoContent(env, run, requests[n], env.newGuid(p.minted), ContextOf(p.events));
    }
  }

  lemma {:induction false} AdditionsHoldNoContent(env: Environment, run: TraceRun, import_: Import, minted: nat, n: nat)
    requires n <= |import_.observations|
    ensures forall e | e in Additions(env, run, import_, minted, n) :: HoldsNoContent(env, e)
  {
    if n > 0 {
      AdditionsHoldNoContent(env, run, import_, minted, n - 1);
    }
  }

  lemma ImportingAddsNoContent(env: Environment, run: TraceRun, minted: nat, import_: Import, after: TraceRun)
    requires NoContent(env, run) && after == ImportedRun(env, run, minted, import_)
    ensures NoContent(env, after)
  {
    if run.recordingMode == MetadataOnly {
      AdditionsHoldNoContent(env, run, import_, minted, |import_.observations|);
      forall i | 0 <= i < |after.events| ensures HoldsNoContent(env, after.events[i]) {
        if i < |run.events| {
          assert HoldsNoContent(env, run.events[i]);
          assert after.events[i] == CorrectedEvents(env, run, import_)[i];
        } else {
          assert after.events[i] in Additions(env, run, import_, minted, |import_.observations|);
        }
      }
    }
  }

  lemma RecordedRunHasNoContent(env: Environment, run: TraceRun, minted: nat, requests: seq<RecordEventRequest>,
                                events: seq<FlightEvent>)
    requires NoContent(env, run) && RecordAll(env, run, minted, requests).Ok?
    requires events == RecordAll(env, run, minted, requests).value.events
    ensures NoContent(env, run.(events := events))
  {
    if run.recordingMode == MetadataOnly { RecordingAddsNoContent(env, run, minted, requests); }
  }

  lemma ImportOutcomeHasNoContent(env: Environment, run: TraceRun, minted: nat, import_: Import, outcome: ImportOutcome)
    requires NoContent(env, run) && outcome == ImportInto(env, run, minted, import_)
    ensures outcome.Replaced? ==> NoContent(env, outcome.run)
  {
    ImportingAddsNoContent(env, run, minted, import_, ImportedRun(env, run, minted, import_));
  }

  lemma DecideKeepsNoContent(env: Environment, minted: nat, op: Operation, run: TraceRun, verdict: Verdict)
    requires !op.StartRun? && verdict == Decide(env, minted, op, run) && NoContent(env, run)
    ensures verdict.change.Replace? ==> NoContent(env, verdict.change.run)
  {
    match op
    case RecordEvents(_, requests) =>
      var recorded := RecordAll(env, run, minted, requests);
      if recorded.Ok? { RecordedRunHasNoContent(env, run, minted, requests, recorded.value.events); }
    case ImportUsage(_, sourceId, request, now) =>
      var import_ := Prepared(env, sourceId, request, now);
      ImportOutcomeHasNoContent(env, run, minted, import_, ImportInto(env, run, minted, import_));
    case CompleteRun(_, _) =>
  }

  // After any history no metadata-only run holds content.
  lemma {:induction false} MetadataOnlyRunsHoldNoContent(env: Environment, limit: nat, history: seq<Operation>,
                                                         id: Guid)
    requires Trusted(env) && AllTimely(history) && id in MemoryAfter(env, limit, history).runs
    ensures NoContent(env, MemoryAfter(env, limit, history).runs[id])
    decreases |history|
  {
    if history != [] {
      var earlier, op := history[..|history| - 1], history[|history| - 1];
      var s := MemoryAfter(env, limit, earlier);
      HistoryKeepsInvariant(env, limit, earlier);
      StepRun(env, limit, s, op, id, MemoryAfter(env, limit, history));
      if id in s.runs {
        MetadataOnlyRunsHoldNoContent(env, limit, earlier, id);
        if Admissible(op) && Rewrites(env, s, op, id) {
          DecideKeepsNoContent(env, s.minted, op, s.runs[id], Decide(env, s.minted, op, s.runs[id]));
        }
      }
    }
  }

  // ----- Full recording -----

  // The attributes of a request as a dictionary.
  function AsMap(attributes: Attributes): map<string, string> {
    if attributes == [] then map[]
    else AsMap(attributes[..|attributes| - 1])[attributes[|attributes| - 1].0 := attributes[|attributes| - 1].1]
  }

  lemma {:induction false} FullKeepsAttributes(env: Environment, attributes: Attributes)
    ensures ProtectedAttributes(env, Full, attributes) == AsMap(attributes)
  {
    if attributes != [] {
      FullKeepsAttributes(env, attributes[..|attributes| - 1]);
    }
  }

  // The event says everything the request said, as it was sent.
  ghost predicate SaysAsSent(r: RecordEventRequest, e: FlightEvent) {
    && e.kind == r.kind && e.name == Text.Trim(r.name) && e.status == r.status
    && e.startedAt == r.startedAt && e.endedAt == r.endedAt && e.parentEventId == r.parentEventId
    && e.agentName == r.agentName && e.model == r.model && e.identity == r.identity && e.details == r.details
    && e.inputTokens == r.inputTokens && e.outputTokens == r.outputTokens
    && e.estimatedCost == r.estimatedCost && e.costBasis == r.costBasis
    && e.reportedAiCredits == r.reportedAiCredits && e.estimatedAiCredits == r.estimatedAiCredits
    && e.input == r.input && e.output == r.output && e.traceId == r.traceId && e.spanId == r.spanId
    && e.attributes == (if r.attributes.Some? then Some(AsMap(r.attributes.value)) else None)
    && (r.taskId.Some? ==> e.taskId == r.taskId) && (r.parentTaskId.Some? ==> e.parentTaskId == r.parentTaskId)
  }

  lemma FullEventSaysAsSent(env: Environment, run: TraceRun, r: RecordEventRequest, id: Guid, context: TaskContext)
    requires run.recordingMode == Full
    ensures SaysAsSent(r, RecordedEvent(env, run, r, id, context))
  {
    if r.attributes.Some? { FullKeepsAttributes(env, r.attributes.value); }
  }

  // What a run recorded in full answers a request with: the stored event of a replayed span,
  // or an event that says everything the request said.
  ghost predicate AnsweredInFull(r: RecordEventRequest, e: FlightEvent) {
    (IsReplayable(r) && e.traceId == r.traceId && e.spanId == r.spanId) || SaysAsSent(r, e)
  }

  lemma FullStepKeepsEverything(env: Environment, run: TraceRun, p: Progress, r: RecordEventRequest, after: Progress)
    requires run.recordingMode == Full && RecordOne(env, run, p, r) == Ok(after)
    ensures |after.recorded| == |p.recorded| + 1 && p.recorded <= after.recorded && p.events <= after.events
    ensures AnsweredInFull(r, after.recorded[|p.recorded|]) && after.recorded[|p.recorded|] in after.events
  {
    FullEventSaysAsSent(env, run, r, env.newGuid(p.minted), ContextOf(p.events));
  }

  ghost predicate AllAnsweredInFull(requests: seq<RecordEventRequest>, p: Progress) {
    |p.recorded| == |requests| && forall k | 0 <= k < |requests| ::
        AnsweredInFull(requests[k], p.recorded[k]) && p.recorded[k] in p.events
  }

  lemma AnsweredOneMore(init: seq<RecordEventRequest>, last: RecordEventRequest, before: Progress, after: Progress)
    requires AllAnsweredInFull(init, before)
    requires |after.recorded| == |before.recorded| + 1 && before.recorded <= after.recorded
             && before.events <= after.events
    requires AnsweredInFull(last, after.recorded[|init|]) && after.recorded[|init|] in after.events
    ensures AllAnsweredInFull(init + [last], after)
  {
    forall k | 0 <= k < |init| ensures AnsweredInFull(init[k], after.recorded[k]) && after.recorded[k] in after.events {
      assert AnsweredInFull(init[k], before.recorded[k]) && before.recorded[k] in before.events;
      assert after.recorded[k] == before.recorded[k];
    }
  }

  // An accepted batch on a run recorded in full is answered request by request, and the run
  // has what it was answered with.
  lemma {:induction false} FullRunsKeepEverything(env: Environment, run: TraceRun, minted: nat,
                                                  requests: seq<RecordEventRequest>, p: Progress)
    requires run.recordingMode == Full && RecordAll(env, run, minted, requests) == Ok(p)
    ensures AllAnsweredInFull(requests, p)
    decreases |requests|
  {
    if requests != [] {
      var init, last := requests[..|requests| - 1], requests[|requests| - 1];
      assert requests == init + [last];
      var before := LastRecorded(env, run, minted, requests, p);
      FullRunsKeepEverything(env, run, minted, init, before);
      FullOneMore(env, run, init, last, requests, before, p);
    }
  }

  lemma LastRecorded(env: Environment, run: TraceRun, minted: nat, requests: seq<RecordEventRequest>, p: Progress)
    returns (before: Progress)
    requires requests != [] && RecordAll(env, run, minted, requests) == Ok(p)
    ensures RecordAll(env, run, minted, requests[..|requests| - 1]) == Ok(before)
    ensures RecordOne(env, run, before, requests[|requests| - 1]) == Ok(p)
  {
    before := RecordAll(env, run, minted, requests[..|requests| - 1]).value;
  }

  lemma FullOneMore(env: Environment, run: TraceRun, init: seq<RecordEventRequest>, last: RecordEventRequest,
                    requests: seq<RecordEventRequest>, before: Progress, after: Progress)
    requires requests == init + [last]
    requires run.recordingMode == Full && AllAnsweredInFull(init, before)
             && RecordOne(env, run, before, last) == Ok(after)
    ensures AllAnsweredInFull(requests, after)
  {
    FullStepKeepsEverything(env, run, before, last, after);
    AnsweredOneMore(init, last, before, after);
  }

  // ----- Attribution -----

  // A recorded event is under the task it names, or else the task activated last; its
  // parent task is the one it names, or else that of the first event of its task.
  lemma RecordedEventIsAttributed(env: Environment, run: TraceRun, p: Progress, r: RecordEventRequest, e: FlightEvent)
    requires RecordOne(env, run, p, r) == Ok(Progress(p.events + [e], p.recorded + [e], p.minted + 1))
    ensures r.taskId.Some? ==> e.taskId == r.taskId
    ensures r.taskId.None? ==> forall task: Guid ::
            e.taskId == Some(task) <==> exists i :: LatestActivation(p.events, task, i)
    ensures r.parentTaskId.Some? ==> e.parentTaskId == r.parentTaskId
    ensures r.parentTaskId.None? && e.taskId.None? ==> e.parentTaskId.None?
    ensures r.parentTaskId.None? && e.taskId.Some? ==>
              var i := FirstMention(p.events, e.taskId.value);
              e.parentTaskId == if i < |p.events| then p.events[i].parentTaskId else None
  {
    var context := ContextOf(p.events);
    assert (p.events + [e])[|p.events|] == e;
    assert |p.events + [e]| != |p.events|;
    assert e == RecordedEvent(env, run, r, env.newGuid(p.minted), context) by {
      assert (p.events + [RecordedEvent(env, run, r, env.newGuid(p.minted), context)])[|p.events|]
          == RecordedEvent(env, run, r, env.newGuid(p.minted), context);
    }
    if r.taskId.None? {
      forall task: Guid ensures e.taskId == Some(task) <==> exists i :: LatestActivation(p.events, task, i) {
        CurrentTaskIsLatestActivation(p.events, task);
      }
    }
    if e.taskId.Some? { ParentsComeFromFirstMention(p.events, e.taskId.value); }
  }
}
