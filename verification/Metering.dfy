/**
 What an import accounts for: after any history the totals of a run that is bound to
 a usage source are those of the last snapshot it accepted, and nothing else.
 */
module Metering {
  import opened Results
  import TaskContexts
  import opened Text
  import opened Totals
  import opened Trace
  import opened UsageImports
  import opened Policy
  import opened Normalising
  import opened Recording
  import opened Decoding
  import opened Importing
  import opened RunInvariants
  import opened Stores
  import opened Service

  // The counters a snapshot reports and a run totals.
  type Measure = c: Counter | !(c.Cost? || c.ReportedCredits? || c.EstimatedCredits?) witness Input

  function OfObservation(o: UsageObservation, m: Measure): Option<int> {
    match m
    case Input => o.inputTokens
    case Output => o.outputTokens
    case EstimatedInput => o.estimatedInputTokens
    case EstimatedOutput => o.estimatedOutputTokens
    case CacheRead => o.cacheReadTokens
    case CacheWrite => o.cacheWriteTokens
    case NanoAiu => o.nanoAiu
  }

  // The totals a run reports (TraceRun); its cache counters are totalled over its events.
  function RunTotal(run: TraceRun, m: Measure): Option<int> {
    match m
    case Input => RunInputTokens(run)
    case Output => RunOutputTokens(run)
    case EstimatedInput => RunEstimatedInputTokens(run)
    case EstimatedOutput => RunEstimatedOutputTokens(run)
    case CacheRead => EventTotal(run.events, m)
    case CacheWrite => EventTotal(run.events, m)
    case NanoAiu => RunNanoAiu(run)
  }

  function EventValues(events: seq<FlightEvent>, m: Measure): (r: seq<Option<int>>)
    ensures |r| == |events| && forall i | 0 <= i < |r| :: r[i] == OfEvent(events[i], m)
  {
    Counters(events, (e: FlightEvent) => OfEvent(e, m))
  }

  function SnapshotValues(observations: seq<UsageObservation>, m: Measure): (r: seq<Option<int>>)
    ensures |r| == |observations| && forall i | 0 <= i < |r| :: r[i] == OfObservation(observations[i], m)
  {
    seq(|observations|, i requires 0 <= i < |observations| => OfObservation(observations[i], m))
  }

  // The totals of a snapshot on its own.
  function SnapshotTotal(observations: seq<UsageObservation>, m: Measure): Option<int> {
    Total(SnapshotValues(observations, m))
  }

  lemma RunTotalIsOfEvents(run: TraceRun, m: Measure)
    ensures RunTotal(run, m) == Total(EventValues(run.events, m))
  {
    match m
    case Input => assert Counters(run.events, (e: FlightEvent) => e.inputTokens) == EventValues(run.events, m);
    case Output => assert Counters(run.events, (e: FlightEvent) => e.outputTokens) == EventValues(run.events, m);
    case EstimatedInput =>
      assert Counters(run.events, (e: FlightEvent) => ImportedCounter(e, (u: ImportedUsage) => u.estimatedInputTokens))
          == EventValues(run.events, m);
    case EstimatedOutput =>
      assert Counters(run.events, (e: FlightEvent) => ImportedCounter(e, (u: ImportedUsage) => u.estimatedOutputTokens))
          == EventValues(run.events, m);
    case NanoAiu =>
      assert Counters(run.events, (e: FlightEvent) => ImportedCounter(e, (u: ImportedUsage) => u.nanoAiu))
          == EventValues(run.events, m);
    case CacheRead => assert Counters(run.events, (e: FlightEvent) => OfEvent(e, m)) == EventValues(run.events, m);
    case CacheWrite => assert Counters(run.events, (e: FlightEvent) => OfEvent(e, m)) == EventValues(run.events, m);
  }

  // ----- A run that mirrors a snapshot -----

  // What an observation counts for in a snapshot; nothing when it is not mentioned.
  function Reported(observations: seq<UsageObservation>, id: string, m: Measure): Option<int> {
    var n := FindId(observations, id);
    if n < |observations| then OfObservation(observations[n], m) else None
  }

  function Reporting(observations: seq<UsageObservation>, m: Measure): string -> Option<int> {
    (id: string) => Reported(observations, id, m)
  }

  ghost predicate MirroredAt(events: seq<FlightEvent>, observations: seq<UsageObservation>, i: int)
    requires 0 <= i < |events|
  {
    forall m: Measure :: OfEvent(events[i], m) ==
      if events[i].imported.Some? then Reported(observations, events[i].imported.value.observationId, m) else None
  }

  // Every event counts for what the snapshot says of it, and the run has every observation.
  ghost predicate Mirrors(events: seq<FlightEvent>, observations: seq<UsageObservation>) {
    && (forall i | 0 <= i < |events| :: MirroredAt(events, observations, i))
    && SnapshotIds(observations) <= ImportedIds(events)
  }

  function ObservedIds(events: seq<FlightEvent>): seq<string> {
    if events == [] then []
    else (if events[0].imported.Some? then [events[0].imported.value.observationId] else []) + ObservedIds(events[1..])
  }

  lemma {:induction false} ObservedIdsAre(events: seq<FlightEvent>)
    requires DistinctObservations(events)
    ensures Distinct(ObservedIds(events))
    ensures forall id :: id in ObservedIds(events) <==> id in ImportedIds(events)
  {
    if events != [] {
      var rest := events[1..];
      assert forall i | 0 <= i < |rest| :: rest[i] == events[i + 1];
      ObservedIdsAre(rest);
      assert events == [events[0]] + rest;
      ImportedIdsOfConcat([events[0]], rest);
      if events[0].imported.Some? {
        var id := events[0].imported.value.observationId;
        assert [events[0]][0].imported.value.observationId == id;
        assert ImportedIds([events[0]]) == {id};
        forall i | 0 <= i < |rest| && rest[i].imported.Some? ensures rest[i].imported.value.observationId != id {
          assert events[i + 1] == rest[i];
        }
      }
    }
  }

  // The total over the events is the tally over their observations.
  lemma {:induction false} EventsTally(events: seq<FlightEvent>, observations: seq<UsageObservation>, m: Measure)
    requires forall i | 0 <= i < |events| :: MirroredAt(events, observations, i)
    ensures Total(EventValues(events, m)) == Tally(ObservedIds(events), Reporting(observations, m))
  {
    var value := Reporting(observations, m);
    if events != [] {
      var rest := events[1..];
      forall i | 0 <= i < |rest| ensures MirroredAt(rest, observations, i) {
        assert MirroredAt(events, observations, i + 1);
      }
      EventsTally(rest, observations, m);
      assert EventValues(events, m)[1..] == EventValues(rest, m);
      assert MirroredAt(events, observations, 0);
      assert EventValues(events, m)[0] == OfEvent(events[0], m);
      if events[0].imported.Some? {
        TallyWithout(ObservedIds(events), value, 0);
        assert Without(ObservedIds(events), 0) == ObservedIds(rest);
      } else {
        assert ObservedIds(events) == ObservedIds(rest);
      }
    }
  }

  lemma SnapshotTally(observations: seq<UsageObservation>, m: Measure)
    requires Distinct(Ids(observations))
    ensures Tally(Ids(observations), Reporting(observations, m)) == SnapshotTotal(observations, m)
  {
    var value := Reporting(observations, m);
    var ids := Ids(observations);
    forall i | 0 <= i < |ids| ensures SnapshotValues(observations, m)[i] == value(ids[i]) {
      var n := FindId(observations, ids[i]);
      assert ids[n] == ids[i];
    }
    TallyIs(ids, value, SnapshotValues(observations, m));
  }

  lemma ReportedIsMentioned(observations: seq<UsageObservation>, id: string, m: Measure)
    ensures Reported(observations, id, m).Some? ==> id in Ids(observations)
  {
    var n := FindId(observations, id);
    if n < |observations| {
      assert Ids(observations)[n] == id;
    }
  }

  // A run that mirrors a snapshot totals exactly what the snapshot reports.
  lemma MirrorTotals(run: TraceRun, observations: seq<UsageObservation>, m: Measure)
    requires Mirrors(run.events, observations)
    requires DistinctObservations(run.events) && Distinct(Ids(observations))
    ensures RunTotal(run, m) == SnapshotTotal(observations, m)
  {
    var value := Reporting(observations, m);
    RunTotalIsOfEvents(run, m);
    EventsTally(run.events, observations, m);
    ObservedIdsAre(run.events);
    SnapshotTally(observations, m);
    forall id | id in Ids(observations) ensures id in ObservedIds(run.events) {
      var i :| 0 <= i < |observations| && Ids(observations)[i] == id;
      assert id in SnapshotIds(observations);
    }
    forall id | id in ObservedIds(run.events) && id !in Ids(observations) ensures value(id).None? {
      ReportedIsMentioned(observations, id, m);
    }
    TallyIsOrderFree(ObservedIds(run.events), Ids(observations), value);
  }

  // ----- What keeps a run in step with its snapshot -----

  lemma CorrectedMirrors(env: Environment, run: TraceRun, import_: Import, i: nat)
    requires i < |run.events| && !ForeignMetering(run.events[i])
    ensures MirroredAt(CorrectedEvents(env, run, import_), import_.observations, i)
  {
  }

  lemma AddedMirrors(env: Environment, run: TraceRun, import_: Import, o: UsageObservation, id: Guid, n: nat)
    requires Distinct(Ids(import_.observations))
    requires n < |import_.observations| && o == import_.observations[n]
    ensures MirroredAt([Observed(env, run, import_, o, None, id)], import_.observations, 0)
  {
    var k := FindId(import_.observations, o.id);
    assert Ids(import_.observations)[k] == Ids(import_.observations)[n];
  }

  lemma AdditionsMirror(env: Environment, run: TraceRun, import_: Import, minted: nat, added: seq<FlightEvent>,
                        source: seq<nat>)
    requires Distinct(Ids(import_.observations))
    requires AddedFrom(env, run, import_, minted, |import_.observations|, added, source)
    ensures forall k | 0 <= k < |added| :: MirroredAt(added, import_.observations, k)
  {
    forall k | 0 <= k < |added| ensures MirroredAt(added, import_.observations, k) {
      assert AddedAt(env, run, import_, minted, added, source, k);
      AddedMirrors(env, run, import_, import_.observations[source[k]], env.newGuid(minted + k), source[k]);
      MirroredAlike([added[k]], 0, added, k, import_.observations);
    }
  }

  lemma MirroredAlike(a: seq<FlightEvent>, i: nat, b: seq<FlightEvent>, j: nat, observations: seq<UsageObservation>)
    requires i < |a| && j < |b| && a[i] == b[j] && MirroredAt(a, observations, i)
    ensures MirroredAt(b, observations, j)
  {
  }

  lemma ConcatMirrors(a: seq<FlightEvent>, b: seq<FlightEvent>, observations: seq<UsageObservation>)
    requires forall i | 0 <= i < |a| :: MirroredAt(a, observations, i)
    requires forall i | 0 <= i < |b| :: MirroredAt(b, observations, i)
    ensures forall i | 0 <= i < |a + b| :: MirroredAt(a + b, observations, i)
  {
    forall i | 0 <= i < |a + b| ensures MirroredAt(a + b, observations, i) {
      if i < |a| {
        MirroredAlike(a, i, a + b, i, observations);
      } else {
        MirroredAlike(b, i - |a|, a + b, i, observations);
      }
    }
  }

  // Accepting a snapshot makes the run mirror it.
  lemma ImportMirrors(env: Environment, run: TraceRun, minted: nat, import_: Import)
    requires !HasForeignMetering(run.events) && Distinct(Ids(import_.observations))
    requires DistinctObservations(run.events)
    ensures Mirrors(ImportedRun(env, run, minted, import_).events, import_.observations)
  {
    var n := |import_.observations|;
    var base, added := CorrectedEvents(env, run, import_), Additions(env, run, import_, minted, n);
    var source := AdditionsHaveSources(env, run, import_, minted, n);
    forall i | 0 <= i < |base| ensures MirroredAt(base, import_.observations, i) {
      CorrectedMirrors(env, run, import_, i);
    }
    AdditionsMirror(env, run, import_, minted, added, source);
    ConcatMirrors(base, added, import_.observations);
    ImportCovers(env, run, minted, import_, base, added, source);
  }

  lemma ImportCovers(env: Environment, run: TraceRun, minted: nat, import_: Import,
                     base: seq<FlightEvent>, added: seq<FlightEvent>, source: seq<nat>)
    requires base == CorrectedEvents(env, run, import_) && DistinctObservations(run.events)
    requires AddedFrom(env, run, import_, minted, |import_.observations|, added, source)
    requires forall j | 0 <= j < |import_.observations| && import_.observations[j].id !in ImportedIds(run.events) ::
             j in source
    ensures SnapshotIds(import_.observations) <= ImportedIds(base + added)
  {
    SameShapeIsObserved(run.events, base);
    ImportedIdsOfConcat(base, added);
    AllObserved(env, run, import_, minted, added, source);
  }

  lemma AppendMirrors(events: seq<FlightEvent>, e: FlightEvent, observations: seq<UsageObservation>)
    requires Mirrors(events, observations)
    requires e.imported.None? && e.inputTokens.None? && e.outputTokens.None?
    ensures Mirrors(events + [e], observations)
  {
    assert MirroredAt([e], observations, 0);
    ConcatMirrors(events, [e], observations);
    ImportedIdsOfConcat(events, [e]);
  }

  lemma RecordOneMirrors(env: Environment, run: TraceRun, p: Progress, r: RecordEventRequest,
                         observations: seq<UsageObservation>)
    requires IsBound(run) && Mirrors(p.events, observations) && RecordOne(env, run, p, r).Ok?
    ensures Mirrors(RecordOne(env, run, p, r).value.events, observations)
  {
    var after := RecordOne(env, run, p, r).value;
    if after.events != p.events {
      var e := RecordedEvent(env, run, r, env.newGuid(p.minted), TaskContexts.ContextOf(p.events));
      AppendMirrors(p.events, e, observations);
    }
  }

  lemma {:induction false} RecordingMirrors(env: Environment, run: TraceRun, minted: nat,
                                            requests: seq<RecordEventRequest>, observations: seq<UsageObservation>)
    requires IsBound(run) && Mirrors(run.events, observations) && RecordAll(env, run, minted, requests).Ok?
    ensures Mirrors(RecordAll(env, run, minted, requests).value.events, observations)
  {
    if requests != [] {
      var n := |requests| - 1;
      RecordingMirrors(env, run, minted, requests[..n], observations);
      RecordOneMirrors(env, run, RecordAll(env, run, minted, requests[..n]).value, requests[n], observations);
    }
  }

  // ----- The last accepted snapshot -----

  // An import of run `id` that was accepted as a change.
  predicate Accepts(op: Operation, reply: Reply, id: Guid) {
    op.ImportUsage? && op.runId == id && reply.Imported? && reply.result.changed
  }

  function ImportOf(env: Environment, op: Operation): Import
    requires op.ImportUsage?
  {
    Prepared(env, op.sourceId, op.import_, op.receivedAt)
  }

  ghost function LastAccepted(env: Environment, limit: nat, history: seq<Operation>, id: Guid): Option<Import> {
    if history == [] then None
    else
      var earlier, op := history[..|history| - 1], history[|history| - 1];
      if Accepts(op, MemoryStep(env, limit, MemoryAfter(env, limit, earlier), op).1, id) then Some(ImportOf(env, op))
      else LastAccepted(env, limit, earlier, id)
  }

  // The run is bound to the snapshot and mirrors it; or it is not bound at all.
  ghost predicate Accounts(run: TraceRun, last: Option<Import>) {
    match last
    case None => CursorOf(run).None?
    case Some(import_) =>
      && CursorOf(run) == Some(NewCursor(import_))
      && Mirrors(run.events, import_.observations) && Distinct(Ids(import_.observations))
  }

  lemma ImportAccounts(env: Environment, run: TraceRun, minted: nat, import_: Import, outcome: ImportOutcome)
    requires outcome == ImportInto(env, run, minted, import_) && outcome.Replaced?
    requires DistinctObservations(run.events) && Distinct(Ids(import_.observations))
    ensures outcome.result.changed && Accounts(outcome.run, Some(import_))
  {
    ImportMirrors(env, run, minted, import_);
  }

  lemma RecordingAccounts(env: Environment, run: TraceRun, minted: nat, requests: seq<RecordEventRequest>,
                          events: seq<FlightEvent>, last: Option<Import>)
    requires RecordAll(env, run, minted, requests).Ok? && events == RecordAll(env, run, minted, requests).value.events
    requires Accounts(run, last)
    ensures Accounts(run.(events := events), last)
  {
    if last.Some? { RecordingMirrors(env, run, minted, requests, last.value.observations); }
  }

  lemma DecideAccounts(env: Environment, minted: nat, op: Operation, run: TraceRun, verdict: Verdict,
                       last: Option<Import>)
    requires Trusted(env) && Timely(op) && Admissible(op) && !op.StartRun?
    requires Legal(run) && Accounts(run, last)
    requires verdict == Decide(env, minted, op, run) && verdict.change.Replace?
    ensures op.ImportUsage? <==> verdict.reply.Imported?
    ensures verdict.reply.Imported? ==> verdict.reply.result.changed
    ensures Accounts(verdict.change.run, if op.ImportUsage? then Some(ImportOf(env, op)) else last)
  {
    match op
    case RecordEvents(_, requests) =>
      RecordingAccounts(env, run, minted, requests, verdict.change.run.events, last);
    case ImportUsage(_, sourceId, request, now) =>
      PreparedIsReady(env, sourceId, request, now);
      ImportAccounts(env, run, minted, ImportOf(env, op), ImportInto(env, run, minted, ImportOf(env, op)));
    case CompleteRun(_, _) =>
  }

  lemma UnchangedIsNotAccepted(env: Environment, minted: nat, op: Operation, run: TraceRun, verdict: Verdict)
    requires !op.StartRun? && verdict == Decide(env, minted, op, run) && !verdict.change.Replace?
    ensures !Accepts(op, if verdict.change.Refuse? then Rejected(verdict.change.error) else verdict.reply, op.runId)
  {
  }

  lemma StepAccounts(env: Environment, limit: nat, s: MemoryService, op: Operation, id: Guid, last: Option<Import>,
                     after: MemoryService, reply: Reply)
    requires Trusted(env) && Timely(op) && Invariant(env, limit, s)
    requires (after, reply) == MemoryStep(env, limit, s, op) && id in after.runs
    requires if id in s.runs then Accounts(s.runs[id], last) else last.None?
    ensures Accounts(after.runs[id], if Accepts(op, reply, id) then Some(ImportOf(env, op)) else last)
  {
    StepRun(env, limit, s, op, id, after);
    if Admissible(op) && !op.StartRun? && op.runId == id && id in s.runs {
      assert RunOk(env, s.minted, s.runs, id);
      var verdict := Decide(env, s.minted, op, s.runs[id]);
      DecideKeepsId(env, s.minted, op, s.runs[id], verdict);
      StepIsApplied(env, limit, s, op, verdict);
      if verdict.change.Replace? {
        DecideAccounts(env, s.minted, op, s.runs[id], verdict, last);
      } else {
        UnchangedIsNotAccepted(env, s.minted, op, s.runs[id], verdict);
      }
    }
  }

  // ----- Whole histories -----

  lemma {:induction false} HistoryAccounts(env: Environment, limit: nat, history: seq<Operation>, id: Guid)
    requires Trusted(env) && AllTimely(history)
    ensures var s, last := MemoryAfter(env, limit, history), LastAccepted(env, limit, history, id);
            && (last.Some? ==> MintedBy(env, s.minted, id))
            && (id in s.runs ==> Accounts(s.runs[id], last))
  {
    if history != [] {
      var earlier, op := history[..|history| - 1], history[|history| - 1];
      HistoryAccounts(env, limit, earlier, id);
      HistoryKeepsInvariant(env, limit, earlier);
      var s, last := MemoryAfter(env, limit, earlier), LastAccepted(env, limit, earlier, id);
      var (after, reply) := MemoryStep(env, limit, s, op);
      StepKeepsInvariant(env, limit, s, op);
      if Accepts(op, reply, id) {
        assert RunOk(env, s.minted, s.runs, id);
      }
      if MintedBy(env, s.minted, id) {
        MintedByMore(env, s.minted, after.minted, id);
      }
      if id in after.runs {
        if id !in s.runs && last.Some? {
          StepRun(env, limit, s, op, id, after);
        }
        StepAccounts(env, limit, s, op, id, last, after, reply);
      }
    }
  }

  // Each total of a bound run is that of the last snapshot it accepted, whatever was
  // recorded, imported before or completed in between.
  lemma TotalsAreTheLastSnapshots(env: Environment, limit: nat, history: seq<Operation>, id: Guid, m: Measure)
    requires Trusted(env) && AllTimely(history) && id in MemoryAfter(env, limit, history).runs
    ensures var run, last := MemoryAfter(env, limit, history).runs[id], LastAccepted(env, limit, history, id);
            && (CursorOf(run).Some? <==> last.Some?)
            && (last.Some? ==> RunTotal(run, m) == SnapshotTotal(last.value.observations, m))
  {
    HistoryAccounts(env, limit, history, id);
    HistoryKeepsInvariant(env, limit, history);
    var s := MemoryAfter(env, limit, history);
    assert RunOk(env, s.minted, s.runs, id);
    var last := LastAccepted(env, limit, history, id);
    if last.Some? {
      MirrorTotals(s.runs[id], last.value.observations, m);
    }
  }

  // Every accepted change names exactly the revision it replaces, and brings a new one.
  lemma AcceptedNamesWhatItReplaces(env: Environment, limit: nat, history: seq<Operation>, op: Operation)
    requires Trusted(env) && AllTimely(history) && op.ImportUsage?
    requires Accepts(op, MemoryStep(env, limit, MemoryAfter(env, limit, history), op).1, op.runId)
    ensures var last, import_ := LastAccepted(env, limit, history, op.runId), ImportOf(env, op);
            && import_.expectedRevision == (if last.Some? then Some(last.value.revision) else None)
            && (last.Some? ==> last.value.revision != import_.revision && SameSource(NewCursor(last.value), import_))
  {
    HistoryAccounts(env, limit, history, op.runId);
    var s := MemoryAfter(env, limit, history);
    AcceptedExpects(env, limit, s, op);
  }

  lemma AcceptedExpects(env: Environment, limit: nat, s: MemoryService, op: Operation)
    requires op.ImportUsage? && Accepts(op, MemoryStep(env, limit, s, op).1, op.runId)
    ensures op.runId in s.runs
    ensures var run, import_ := s.runs[op.runId], ImportOf(env, op);
            && RevisionOf(run) == import_.expectedRevision && RevisionOf(run) != Some(import_.revision)
            && (CursorOf(run).Some? ==> SameSource(CursorOf(run).value, import_))
  {
  }

  // Which operations of a history were accepted imports of the run.
  ghost function Acceptances(env: Environment, limit: nat, history: seq<Operation>, id: Guid): (r: seq<bool>)
    ensures |r| == |history|
  {
    if history == [] then []
    else
      var init, op := history[..|history| - 1], history[|history| - 1];
      Acceptances(env, limit, init, id) + [AcceptedAfter(env, limit, init, op, id)]
  }

  // After this history the operation is an accepted import of the run.
  ghost predicate AcceptedAfter(env: Environment, limit: nat, earlier: seq<Operation>, op: Operation, id: Guid) {
    Accepts(op, MemoryStep(env, limit, MemoryAfter(env, limit, earlier), op).1, id)
  }

  lemma {:induction false} AcceptancesOfPrefix(env: Environment, limit: nat, history: seq<Operation>, id: Guid, k: nat)
    requires k < |history|
    ensures Acceptances(env, limit, history, id)[k] == Acceptances(env, limit, history[..k + 1], id)[k]
    decreases |history|
  {
    var init := history[..|history| - 1];
    if k < |init| {
      AcceptancesOfPrefix(env, limit, init, id, k);
      assert init[..k + 1] == history[..k + 1];
      assert Acceptances(env, limit, history, id)[k] == Acceptances(env, limit, init, id)[k];
    } else {
      assert history[..k + 1] == history;
    }
  }

  lemma LastAcceptance(env: Environment, limit: nat, history: seq<Operation>, id: Guid)
    requires history != []
    ensures var n := |history| - 1;
            Acceptances(env, limit, history, id)[n] == AcceptedAfter(env, limit, history[..n], history[n], id)
  {
  }

  lemma AcceptancesAre(env: Environment, limit: nat, history: seq<Operation>, id: Guid, k: nat)
    requires k < |history|
    ensures Acceptances(env, limit, history, id)[k] ==
            AcceptedAfter(env, limit, history[..k], history[k], id)
  {
    AcceptancesOfPrefix(env, limit, history, id, k);
    LastAcceptance(env, limit, history[..k + 1], id);
    assert history[..k + 1][..k] == history[..k] && history[..k + 1][k] == history[k];
  }

  ghost predicate NoneFrom(accepted: seq<bool>, m: nat) {
    forall k | m <= k < |accepted| :: !accepted[k]
  }

  lemma LastAcceptedOneMore(env: Environment, limit: nat, history: seq<Operation>, id: Guid)
    requires history != []
    ensures var n := |history| - 1;
            && Acceptances(env, limit, history, id)[..n] == Acceptances(env, limit, history[..n], id)
            && LastAccepted(env, limit, history, id) ==
                 if Acceptances(env, limit, history, id)[n] then Some(ImportOf(env, history[n]))
                 else LastAccepted(env, limit, history[..n], id)
  {
  }

  // The last accepted snapshot came with the last operation that was accepted.
  lemma {:induction false} LastAcceptedCameAt(env: Environment, limit: nat, history: seq<Operation>, id: Guid)
    returns (i: nat)
    requires LastAccepted(env, limit, history, id).Some?
    ensures var accepted := Acceptances(env, limit, history, id);
            && i < |history| && accepted[i] && NoneFrom(accepted, i + 1) && history[i].ImportUsage?
            && LastAccepted(env, limit, history, id) == Some(ImportOf(env, history[i]))
  {
    var n, accepted := |history| - 1, Acceptances(env, limit, history, id);
    LastAcceptedOneMore(env, limit, history, id);
    if accepted[n] {
      i := n;
    } else {
      i := LastAcceptedCameAt(env, limit, history[..n], id);
      assert forall k | 0 <= k < n :: accepted[..n][k] == accepted[k];
    }
  }

  lemma {:induction false} NothingNewIsAccepted(env: Environment, limit: nat, history: seq<Operation>, id: Guid, m: nat)
    requires m <= |history| && NoneFrom(Acceptances(env, limit, history, id), m)
    ensures LastAccepted(env, limit, history, id) == LastAccepted(env, limit, history[..m], id)
    decreases |history|
  {
    if m == |history| {
      assert history[..m] == history;
    } else {
      var n, accepted := |history| - 1, Acceptances(env, limit, history, id);
      LastAcceptedOneMore(env, limit, history, id);
      assert forall k | 0 <= k < n :: accepted[..n][k] == accepted[k];
      NothingNewIsAccepted(env, limit, history[..n], id, m);
      assert history[..n][..m] == history[..m];
    }
  }

  // The snapshot an accepted import replaces is the one that was current at an earlier
  // point, when the client read it, if and only if no import of the run was accepted since.
  lemma ReplacesWhatWasRead(env: Environment, limit: nat, history: seq<Operation>, id: Guid, m: nat) returns (i: nat)
    requires m <= |history| && LastAccepted(env, limit, history, id).Some?
    ensures i < |history| && AcceptedAfter(env, limit, history[..i], history[i], id)
    ensures LastAccepted(env, limit, history, id) == Some(ImportOf(env, history[i]))
    ensures i < m <==> NoneFrom(Acceptances(env, limit, history, id), m)
    ensures i < m ==> LastAccepted(env, limit, history, id) == LastAccepted(env, limit, history[..m], id)
  {
    i := LastAcceptedCameAt(env, limit, history, id);
    AcceptancesAre(env, limit, history, id, i);
    if i < m { NothingNewIsAccepted(env, limit, history, id, m); }
  }

  // An import into a bound run is accepted as a change exactly when it is of the same source,
  // names the current revision and brings another, and leaves no more than 1000 observations.
  lemma AcceptedExactly(env: Environment, limit: nat, history: seq<Operation>, op: Operation)
    requires Trusted(env) && AllTimely(history) && op.ImportUsage? && Admissible(op)
    requires op.runId in MemoryAfter(env, limit, history).runs && LastAccepted(env, limit, history, op.runId).Some?
    ensures var s, last, import_ :=
            MemoryAfter(env, limit, history), LastAccepted(env, limit, history, op.runId).value, ImportOf(env, op);
            Accepts(op, MemoryStep(env, limit, s, op).1, op.runId) <==>
              && SameSource(NewCursor(last), import_) && import_.revision != last.revision
              && import_.expectedRevision == Some(last.revision)
              && |ImportedIds(s.runs[op.runId].events) + SnapshotIds(import_.observations)| <= MAXIMUM_OBSERVATIONS
  {
    var s, last := MemoryAfter(env, limit, history), LastAccepted(env, limit, history, op.runId).value;
    HistoryAccounts(env, limit, history, op.runId);
    HistoryKeepsInvariant(env, limit, history);
    assert RunOk(env, s.minted, s.runs, op.runId);
    var run := s.runs[op.runId];
    BoundAccepts(env, s.minted, run, last, ImportOf(env, op));
    DecideKeepsId(env, s.minted, op, run, Decide(env, s.minted, op, run));
    StepIsApplied(env, limit, s, op, Decide(env, s.minted, op, run));
  }

  lemma BoundAccepts(env: Environment, minted: nat, run: TraceRun, last: Import, import_: Import)
    requires Legal(run) && CursorOf(run) == Some(NewCursor(last))
    ensures ImportInto(env, run, minted, import_).Replaced? <==>
              && SameSource(NewCursor(last), import_) && import_.revision != last.revision
              && import_.expectedRevision == Some(last.revision)
              && |ImportedIds(run.events) + SnapshotIds(import_.observations)| <= MAXIMUM_OBSERVATIONS
    ensures ImportInto(env, run, minted, import_).Replaced? ==> ImportInto(env, run, minted, import_).result.changed
    ensures ImportInto(env, run, minted, import_).Unchanged? ==> !ImportInto(env, run, minted, import_).result.changed
  {
    forall i | 0 <= i < |run.events| ensures !ForeignMetering(run.events[i]) {
      assert LegalAt(run.events, i, run.id, CursorOf(run));
    }
  }

  lemma {:induction false} AtMostOneIdEach(observations: seq<UsageObservation>)
    requires Distinct(Ids(observations))
    ensures |SnapshotIds(observations)| <= |observations|
  {
    if observations != [] {
      var init := observations[..|observations| - 1];
      assert Ids(init) == Ids(observations)[..|init|];
      AtMostOneIdEach(init);
      assert observations[..|init| + 1] == observations;
      SnapshotIdsOfPrefix(observations, |init|);
    }
  }

  lemma FreshRunAccepts(env: Environment, run: TraceRun, minted: nat, import_: Import)
    requires run.events == [] && run.usageImports == Some([]) && ImportReady(import_) && import_.expectedRevision.None?
    requires |import_.observations| <= MAXIMUM_OBSERVATIONS
    ensures ImportInto(env, run, minted, import_).Replaced?
  {
    AtMostOneIdEach(import_.observations);
    assert ImportedIds(run.events) + SnapshotIds(import_.observations) == SnapshotIds(import_.observations);
  }

  lemma AfterOneStart(env: Environment, limit: nat, start: Operation)
    requires start.StartRun? && Admissible(start)
    ensures MemoryAfter(env, limit, [start]) ==
            MemoryService(map[env.newGuid(0) := StartedRun(env, start.start, env.newGuid(0), start.startedAt)], 1)
    ensures forall id :: LastAccepted(env, limit, [start], id).None?
  {
    var id := env.newGuid(0);
    var run := StartedRun(env, start.start, id, start.startedAt);
    assert [start][..0] == [];
    assert MemoryAfter(env, limit, []) == MemoryService(map[], 0);
    assert MemoryAdd(map[], limit, run) == Ok(Retained(map[id := run], limit));
    assert Retained(map[id := run], limit) == map[id := run];
  }

  lemma AcceptedIsLast(env: Environment, limit: nat, earlier: seq<Operation>, op: Operation, history: seq<Operation>)
    requires history == earlier + [op] && op.ImportUsage?
    requires Accepts(op, MemoryStep(env, limit, MemoryAfter(env, limit, earlier), op).1, op.runId)
    ensures LastAccepted(env, limit, history, op.runId) == Some(ImportOf(env, op))
  {
    assert history[..|earlier|] == earlier;
  }

  lemma FreshStepAccepts(env: Environment, limit: nat, s: MemoryService, op: Operation)
    requires Trusted(env) && Timely(op) && op.ImportUsage? && Admissible(op) && op.import_.expectedRevision.None?
    requires op.runId in s.runs && s.runs[op.runId].events == [] && s.runs[op.runId].usageImports == Some([])
    requires s.runs[op.runId].id == op.runId
    ensures Accepts(op, MemoryStep(env, limit, s, op).1, op.runId)
  {
    PreparedIsReady(env, op.sourceId, op.import_, op.receivedAt);
    FreshRunAccepts(env, s.runs[op.runId], s.minted, ImportOf(env, op));
    StepIsApplied(env, limit, s, op, Decide(env, s.minted, op, s.runs[op.runId]));
  }

  // A run just started accepts any first snapshot that names no revision.
  lemma FirstImportIsAccepted(env: Environment, limit: nat, start: Operation, op: Operation)
    requires Trusted(env) && Timely(op)
    requires start.StartRun? && Admissible(start) && op.ImportUsage? && Admissible(op)
    requires op.runId == env.newGuid(0) && op.import_.expectedRevision.None?
    ensures LastAccepted(env, limit, [start, op], op.runId) == Some(ImportOf(env, op))
  {
    AfterOneStart(env, limit, start);
    FreshStepAccepts(env, limit, MemoryAfter(env, limit, [start]), op);
    AcceptedIsLast(env, limit, [start], op, [start, op]);
  }

  // What the fingerprint of an import covers.
  function Content(import_: Import): Snapshot {
    Snapshot(import_.sourceKind, import_.format, import_.observations)
  }

  lemma {:induction false} LastAcceptedIsHashed(env: Environment, limit: nat, history: seq<Operation>, id: Guid)
    ensures var last := LastAccepted(env, limit, history, id);
            last.Some? ==> last.value.snapshotHash == env.hash(Content(last.value))
  {
    if history != [] {
      LastAcceptedIsHashed(env, limit, history[..|history| - 1], id);
    }
  }

  // The reply to an import under the current revision, as the recorder promises it.
  function RetryReply(last: Import, import_: Import): Reply {
    if SameSource(NewCursor(last), import_) && last.observations == import_.observations then
      Imported(ImportResult(import_.sourceId, import_.revision, |import_.observations|, false))
    else Rejected(ConflictError)
  }

  // An import under the current revision changes nothing. It is acknowledged for the same
  // source and normalised snapshot and refused otherwise, if and only if the fingerprints of
  // the two snapshots, when they are of one source, do not collide.
  lemma RetryIsExact(env: Environment, limit: nat, history: seq<Operation>, op: Operation)
    requires Trusted(env) && AllTimely(history)
    requires op.ImportUsage? && Admissible(op) && op.runId in MemoryAfter(env, limit, history).runs
    requires LastAccepted(env, limit, history, op.runId).Some?
    requires LastAccepted(env, limit, history, op.runId).value.revision == ImportOf(env, op).revision
    ensures var s, last, import_ :=
            MemoryAfter(env, limit, history), LastAccepted(env, limit, history, op.runId).value, ImportOf(env, op);
            && MemoryStep(env, limit, s, op).0 == s
            && (MemoryStep(env, limit, s, op).1 == RetryReply(last, import_) <==>
                  (SameSource(NewCursor(last), import_) ==> ToldApart(env, Content(last), Content(import_))))
  {
    var s, last := MemoryAfter(env, limit, history), LastAccepted(env, limit, history, op.runId).value;
    HistoryAccounts(env, limit, history, op.runId);
    HistoryKeepsInvariant(env, limit, history);
    LastAcceptedIsHashed(env, limit, history, op.runId);
    assert RunOk(env, s.minted, s.runs, op.runId);
    var run := s.runs[op.runId];
    RetryVerdict(env, s.minted, run, last, ImportOf(env, op));
    StepIsApplied(env, limit, s, op, Decide(env, s.minted, op, run));
  }

  lemma RetryVerdict(env: Environment, minted: nat, run: TraceRun, last: Import, import_: Import)
    requires Legal(run) && CursorOf(run) == Some(NewCursor(last))
    requires last.snapshotHash == env.hash(Content(last)) && import_.snapshotHash == env.hash(Content(import_))
    requires last.revision == import_.revision
    ensures ImportInto(env, run, minted, import_) ==
            if SameSource(NewCursor(last), import_) && env.hash(Content(last)) == env.hash(Content(import_)) then
              Unchanged(ImportResult(import_.sourceId, import_.revision, |import_.observations|, false))
            else Refused(ConflictError)
  {
    forall i | 0 <= i < |run.events| ensures !ForeignMetering(run.events[i]) {
      assert LegalAt(run.events, i, run.id, CursorOf(run));
    }
  }

  // A retry that only reorders the observations, changes letter case, timestamp offsets
  // or padding around models is acknowledged as no change.
  lemma RewrittenRetryIsNoChange(env: Environment, limit: nat, history: seq<Operation>, first: Operation, op: Operation,
                                 shuffled: seq<UsageObservation>)
    requires Trusted(env) && AllTimely(history)
    requires first.ImportUsage? && Admissible(first) && op.ImportUsage?
             && op.runId in MemoryAfter(env, limit, history).runs
    requires LastAccepted(env, limit, history, op.runId) == Some(ImportOf(env, first))
    requires Lower(op.sourceId) == Lower(first.sourceId) && Lower(op.import_.revision) == Lower(first.import_.revision)
    requires op.import_.sourceKind == first.import_.sourceKind && op.import_.format == first.import_.format
    requires multiset(shuffled) == multiset(first.import_.observations)
    requires |op.import_.observations| == |shuffled|
    requires forall i | 0 <= i < |shuffled| :: SameObservation(shuffled[i], op.import_.observations[i])
    requires Admissible(op)
    ensures var s := MemoryAfter(env, limit, history);
            var (after, reply) := MemoryStep(env, limit, s, op);
            after == s && reply.Imported? && !reply.result.changed
  {
    NormaliseIsCanonical(first.import_.observations, op.import_.observations, shuffled);
    RetryIsExact(env, limit, history, op);
  }

  // The totals of a snapshot do not depend on how it was written or ordered.
  lemma SnapshotTotalOfConcat(a: seq<UsageObservation>, b: seq<UsageObservation>, m: Measure)
    ensures SnapshotTotal(a + b, m) == Combine(SnapshotTotal(a, m), SnapshotTotal(b, m))
  {
    assert SnapshotValues(a + b, m) == SnapshotValues(a, m) + SnapshotValues(b, m);
    TotalOfConcat(SnapshotValues(a, m), SnapshotValues(b, m));
  }

  // The total with one observation put before the rest, or after the first of them.
  lemma TotalsOfTwo(o: UsageObservation, first: UsageObservation, rest: seq<UsageObservation>,
                    placed: seq<UsageObservation>, m: Measure)
    requires SnapshotTotal(placed, m) == Combine(SnapshotTotal([o], m), SnapshotTotal(rest, m))
    ensures SnapshotTotal([first] + placed, m) == Combine(SnapshotTotal([o], m), SnapshotTotal([first] + rest, m))
  {
    SnapshotTotalOfConcat([first], placed, m);
    SnapshotTotalOfConcat([first], rest, m);
    CombineReorders(SnapshotTotal([first], m), SnapshotTotal([o], m), SnapshotTotal(rest, m));
  }

  lemma {:induction false} InsertTotals(o: UsageObservation, sorted: seq<UsageObservation>, m: Measure)
    ensures SnapshotTotal(Insert(o, sorted), m) == Combine(SnapshotTotal([o], m), SnapshotTotal(sorted, m))
  {
    if sorted == [] {
      assert Insert(o, sorted) == [o];
    } else if Before(o.id, sorted[0].id) {
      SnapshotTotalOfConcat([o], sorted, m);
    } else {
      InsertTotals(o, sorted[1..], m);
      TotalsOfTwo(o, sorted[0], sorted[1..], Insert(o, sorted[1..]), m);
      assert sorted == [sorted[0]] + sorted[1..];
    }
  }

  lemma InsertingKeepsTotals(init: seq<UsageObservation>, last: UsageObservation, sorted: seq<UsageObservation>,
                             m: Measure)
    requires SnapshotTotal(sorted, m) == SnapshotTotal(init, m)
    ensures SnapshotTotal(Insert(last, sorted), m) == SnapshotTotal(init + [last], m)
  {
    InsertTotals(last, sorted, m);
    SnapshotTotalOfConcat(init, [last], m);
  }

  lemma {:induction false} OrderKeepsTotals(observations: seq<UsageObservation>, m: Measure)
    ensures SnapshotTotal(OrderById(observations), m) == SnapshotTotal(observations, m)
  {
    if observations != [] {
      var init, last := observations[..|observations| - 1], observations[|observations| - 1];
      assert observations == init + [last] && OrderById(observations) == Insert(last, OrderById(init));
      OrderKeepsTotals(init, m);
      OrderStep(init, last, OrderById(init), observations, OrderById(observations), m);
    }
  }

  lemma OrderStep(init: seq<UsageObservation>, last: UsageObservation, sorted: seq<UsageObservation>,
                  observations: seq<UsageObservation>, ordered: seq<UsageObservation>, m: Measure)
    requires observations == init + [last] && ordered == Insert(last, sorted)
    requires SnapshotTotal(sorted, m) == SnapshotTotal(init, m)
    ensures SnapshotTotal(ordered, m) == SnapshotTotal(observations, m)
  {
    InsertingKeepsTotals(init, last, sorted, m);
  }

  lemma NormaliseKeepsTotals(observations: seq<UsageObservation>, m: Measure)
    ensures SnapshotTotal(Normalise(observations), m) == SnapshotTotal(observations, m)
  {
    OrderKeepsTotals(NormaliseEach(observations), m);
    assert SnapshotValues(NormaliseEach(observations), m) == SnapshotValues(observations, m);
  }
}
