/**
 The recorder service over either store: one step per request, as a function of
 the stored runs (or rows) and of the number of identifiers drawn so far.
 */
module Service {
  import opened Results
  import Text
  import opened Trace
  import opened UsageImports
  import opened Policy
  import opened Recording
  import opened Decoding
  import opened Importing
  import opened RunInvariants
  import opened Retention
  import opened Stores

  datatype Operation =
    | StartRun(start: StartRunRequest, startedAt: Instant)
    | RecordEvents(runId: Guid, requests: seq<RecordEventRequest>)
    | ImportUsage(runId: Guid, sourceId: string, import_: UsageImportRequest, receivedAt: Instant)
    | CompleteRun(runId: Guid, endedAt: Instant)

  datatype Reply =
    | RunStarted(run: TraceRun)
    | Recorded(events: seq<FlightEvent>)
    | Imported(result: ImportResult)
    | Completed
    | NotFound
    | Rejected(error: RecorderError)

  // What an operation makes of the run it addresses.
  datatype Verdict = Verdict(change: Change, reply: Reply, minted: nat)

  function Decide(env: Environment, minted: nat, op: Operation, run: TraceRun): Verdict
    requires !op.StartRun?
  {
    match op
    case RecordEvents(_, requests) => (
      match RecordAll(env, run, minted, requests)
      case Err(e) => Verdict(Refuse(e), Rejected(e), minted)
      case Ok(p) =>
        Verdict(if |p.events| == |run.events| then Same
            else Replace(run.(events := p.events)), Recorded(p.recorded), p.minted))
    case ImportUsage(_, sourceId, request, now) => (
      match ImportInto(env, run, minted, Prepared(env, sourceId, request, now))
      case Refused(e) => Verdict(Refuse(e), Rejected(e), minted)
      case Unchanged(result) => Verdict(Same, Imported(result), minted)
      case Replaced(after, more, result) => Verdict(Replace(after), Imported(result), more))
    case CompleteRun(_, endedAt) => Verdict(Replace(run.(endedAt := Some(endedAt))), Completed, minted)
  }

  // Requests the service refuses before it looks at the store.
  ghost predicate Admissible(op: Operation) {
    match op
    case StartRun(start, _) => ValidStart(start)
    case ImportUsage(_, sourceId, request, _) => ValidImport(sourceId, request)
    case _ => true
  }

  function ReplyOf(verdict: Verdict, r: Result<Option<TraceRun>, RecorderError>): Reply {
    match r
    case Err(e) => Rejected(e)
    case Ok(None) => NotFound
    case Ok(Some(_)) => verdict.reply
  }

  datatype MemoryService = MemoryService(runs: Runs, minted: nat)

  ghost function MemoryStep(env: Environment, limit: nat, s: MemoryService, op: Operation): (MemoryService, Reply) {
    if !Admissible(op) then (s, Rejected(ValidationError))
    else if op.StartRun? then
      var run := StartedRun(env, op.start, env.newGuid(s.minted), op.startedAt);
      match MemoryAdd(s.runs, limit, run)
      case Err(e) => (s, Rejected(e))
      case Ok(runs) => (MemoryService(runs, s.minted + 1), RunStarted(run))
    else if op.runId !in s.runs then (s, NotFound)
    else
      var verdict := Decide(env, s.minted, op, s.runs[op.runId]);
      var (runs, r) := MemoryUpdate(s.runs, limit, op.runId, _ => verdict.change);
      (MemoryService(runs, verdict.minted), ReplyOf(verdict, r))
  }

  datatype SqliteService = SqliteService(rows: Rows, minted: nat)

  ghost function SqliteStep(env: Environment, limit: nat, s: SqliteService, op: Operation): (SqliteService, Reply) {
    if !Admissible(op) then (s, Rejected(ValidationError))
    else if op.StartRun? then
      var run := StartedRun(env, op.start, env.newGuid(s.minted), op.startedAt);
      match RowsAdd(s.rows, limit, run)
      case Err(e) => (s, Rejected(e))
      case Ok(rows) => (SqliteService(rows, s.minted + 1), RunStarted(run))
    else if op.runId !in s.rows then (s, NotFound)
    else
      match Decoded(s.rows[op.runId])
      case Err(e) => (s, Rejected(e))
      case Ok(run) =>
        var verdict := Decide(env, s.minted, op, run);
        var (rows, r) := RowsUpdate(s.rows, limit, op.runId, _ => verdict.change);
        (SqliteService(rows, verdict.minted), ReplyOf(verdict, r))
  }

  // ----- What every reachable state keeps -----

  ghost predicate Trusted(env: Environment) {
    && FreshIdentifiers(env) && HashesAreHashes(env)
    && RedactionKeepsModelsValid(env) && RedactionCreatesNoCacheKey(env)
  }

  // The premises are consistent: numbered identifiers, one fingerprint and no redaction meet them.
  lemma PremisesCanHold() returns (env: Environment)
    ensures Trusted(env) && RedactionKeepsHex(env)
  {
    var zeros := seq(64, _ => '0');
    env := Environment(text =>
        text, _ => false, _ => zeros, (n: nat) => n + 1, (id: Guid) => if id > 0 then id - 1 else 0);
    assert Text.IsHash(zeros);
  }

  // The clock reads a time after the Unix epoch.
  predicate Timely(op: Operation) {
    op.ImportUsage? ==> SinceEpoch(op.receivedAt)
  }

  ghost predicate RunOk(env: Environment, minted: nat, runs: Runs, id: Guid)
    requires id in runs
  {
    runs[id].id == id && Legal(runs[id]) && Minted(env, minted, runs[id])
  }

  ghost predicate Invariant(env: Environment, limit: nat, s: MemoryService) {
    WithinLimit(s.runs, limit) && forall id | id in s.runs :: RunOk(env, s.minted, s.runs, id)
  }

  lemma InvariantIsKeyed(env: Environment, limit: nat, s: MemoryService)
    requires Invariant(env, limit, s)
    ensures Keyed(s.runs)
  {
    forall id | id in s.runs ensures s.runs[id].id == id {
      assert RunOk(env, s.minted, s.runs, id);
    }
  }

  lemma MintedMore(env: Environment, minted: nat, more: nat, run: TraceRun)
    requires Minted(env, minted, run) && minted <= more
    ensures Minted(env, more, run)
  {
  }

  // The verdict on a legal run leaves a legal run.
  lemma DecideKeepsLegal(env: Environment, minted: nat, op: Operation, run: TraceRun)
    requires Trusted(env) && Timely(op) && Admissible(op) && !op.StartRun?
    requires Legal(run) && Minted(env, minted, run)
    ensures var v := Decide(env, minted, op, run);
            && v.minted >= minted
            && (v.change.Replace? ==>
                  v.change.run.id == run.id && Legal(v.change.run) && Minted(env, v.minted, v.change.run))
  {
    match op
    case RecordEvents(_, requests) =>
      if RecordAll(env, run, minted, requests).Ok? {
        RecordingKeepsLegal(env, run, minted, requests);
      }
    case ImportUsage(_, sourceId, request, now) =>
      PreparedIsReady(env, sourceId, request, now);
      ImportVerdictIsLegal(env, run, minted, Prepared(env, sourceId, request, now));
    case CompleteRun(_, endedAt) =>
      CompletedIsLegal(env, run, minted, endedAt);
  }

  lemma ImportVerdictIsLegal(env: Environment, run: TraceRun, minted: nat, import_: Import)
    requires Trusted(env) && ImportReady(import_) && Legal(run) && Minted(env, minted, run)
    ensures var outcome := ImportInto(env, run, minted, import_);
            outcome.Replaced? ==>
              && outcome.minted >= minted && outcome.run.id == run.id
              && Legal(outcome.run) && Minted(env, outcome.minted, outcome.run)
  {
    if ImportInto(env, run, minted, import_).Replaced? {
      ImportKeepsLegal(env, run, minted, import_);
    }
  }

  lemma CompletedIsLegal(env: Environment, run: TraceRun, minted: nat, endedAt: Instant)
    requires Legal(run) && Minted(env, minted, run)
    ensures Legal(run.(endedAt := Some(endedAt))) && Minted(env, minted, run.(endedAt := Some(endedAt)))
  {
    assert CursorOf(run.(endedAt := Some(endedAt))) == CursorOf(run);
  }

  lemma RetainedKeepsInvariant(env: Environment, limit: nat, runs: Runs, minted: nat)
    requires forall id | id in runs :: RunOk(env, minted, runs, id)
    ensures Invariant(env, limit, MemoryService(Retained(runs, limit), minted))
    ensures Keyed(runs)
  {
    forall id | id in runs ensures runs[id].id == id {
      assert RunOk(env, minted, runs, id);
    }
    PrunedIsWithinLimit(runs, limit);
    forall id | id in Retained(runs, limit) ensures RunOk(env, minted, Retained(runs, limit), id) {
      assert RunOk(env, minted, runs, id);
    }
  }

  // A run written over one that was there, or beside the others.
  lemma WrittenRunsAreOk(env: Environment, s: MemoryService, run: TraceRun, minted: nat, after: Runs)
    requires forall i | i in s.runs :: RunOk(env, s.minted, s.runs, i)
    requires Legal(run) && Minted(env, minted, run) && s.minted <= minted
    requires after == s.runs[run.id := run]
    ensures forall i | i in after :: RunOk(env, minted, after, i)
  {
    forall i | i in after ensures RunOk(env, minted, after, i) {
      if i != run.id {
        assert RunOk(env, s.minted, s.runs, i);
        MintedMore(env, s.minted, minted, s.runs[i]);
      }
    }
  }

  // Writing an unfinished run adds nothing to prune.
  lemma UnfinishedStaysWithinLimit(runs: Runs, limit: nat, run: TraceRun)
    requires WithinLimit(runs, limit) && Keyed(runs) && run.endedAt.None?
    ensures WithinLimit(runs[run.id := run], limit)
  {
    var after := runs[run.id := run];
    forall k | k in CompletedKeys(after) ensures k in CompletedKeys(runs) {
      var id :| id in after && IsCompleted(after, id) && KeyOf(after, id) == k;
      assert id in runs && IsCompleted(runs, id) && KeyOf(runs, id) == k;
    }
    SubsetCount(CompletedKeys(after), CompletedKeys(runs));
  }

  lemma StartKeepsInvariant(env: Environment, limit: nat, s: MemoryService, op: Operation)
    requires Trusted(env) && Invariant(env, limit, s) && op.StartRun?
    ensures Invariant(env, limit, MemoryStep(env, limit, s, op).0)
    ensures MemoryStep(env, limit, s, op).0.minted >= s.minted
  {
    var id := env.newGuid(s.minted);
    if Admissible(op) && id !in s.runs {
      var run := StartedRun(env, op.start, id, op.startedAt);
      StartedRunIsLegal(env, op.start, id, op.startedAt);
      WrittenRunsAreOk(env, s, run, s.minted + 1, s.runs[id := run]);
      RetainedKeepsInvariant(env, limit, s.runs[id := run], s.minted + 1);
    }
  }

  lemma UpdateKeepsInvariant(env: Environment, limit: nat, s: MemoryService, run: TraceRun, minted: nat)
    requires Invariant(env, limit, s)
    requires Legal(run) && Minted(env, minted, run) && s.minted <= minted && run.id in s.runs
    ensures var after := s.runs[run.id := run];
            Invariant(env, limit, MemoryService(if run.endedAt.Some? then Retained(after, limit) else after, minted))
  {
    var after := s.runs[run.id := run];
    InvariantIsKeyed(env, limit, s);
    WrittenRunsAreOk(env, s, run, minted, after);
    RetainedKeepsInvariant(env, limit, after, minted);
    if run.endedAt.None? { UnfinishedStaysWithinLimit(s.runs, limit, run); }
  }

  lemma WaitingKeepsInvariant(env: Environment, limit: nat, s: MemoryService, minted: nat)
    requires Invariant(env, limit, s) && s.minted <= minted
    ensures Invariant(env, limit, MemoryService(s.runs, minted))
  {
    forall i | i in s.runs ensures RunOk(env, minted, s.runs, i) {
      assert RunOk(env, s.minted, s.runs, i);
      MintedMore(env, s.minted, minted, s.runs[i]);
    }
  }

  lemma StepKeepsInvariant(env: Environment, limit: nat, s: MemoryService, op: Operation)
    requires Trusted(env) && Timely(op) && Invariant(env, limit, s)
    ensures Invariant(env, limit, MemoryStep(env, limit, s, op).0)
    ensures MemoryStep(env, limit, s, op).0.minted >= s.minted
  {
    if op.StartRun? {
      StartKeepsInvariant(env, limit, s, op);
    } else if Admissible(op) && op.runId in s.runs {
      var verdict := Decide(env, s.minted, op, s.runs[op.runId]);
      VerdictKeepsInvariant(env, limit, s, op, verdict);
    }
  }

  lemma VerdictKeepsInvariant(env: Environment, limit: nat, s: MemoryService, op: Operation, verdict: Verdict)
    requires Trusted(env) && Timely(op) && Invariant(env, limit, s)
    requires !op.StartRun? && Admissible(op) && op.runId in s.runs
             && verdict == Decide(env, s.minted, op, s.runs[op.runId])
    ensures Invariant(env, limit, MemoryStep(env, limit, s, op).0)
    ensures MemoryStep(env, limit, s, op).0.minted >= s.minted
  {
    assert RunOk(env, s.minted, s.runs, op.runId);
    DecideKeepsLegal(env, s.minted, op, s.runs[op.runId]);
    match verdict.change
    case Replace(run) => UpdateKeepsInvariant(env, limit, s, run, verdict.minted);
    case _ => WaitingKeepsInvariant(env, limit, s, verdict.minted);
  }

  // ----- What a step does to each run -----

  // The stored runs once a change to run `id` is made.
  function Applied(runs: Runs, limit: nat, id: Guid, change: Change): Runs {
    match change
    case Replace(run) => if run.endedAt.Some? then Retained(runs[id := run], limit) else runs[id := run]
    case _ => runs
  }

  lemma StepIsApplied(env: Environment, limit: nat, s: MemoryService, op: Operation, verdict: Verdict)
    requires Admissible(op) && !op.StartRun? && op.runId in s.runs
    requires verdict == Decide(env, s.minted, op, s.runs[op.runId])
    requires verdict.change.Replace? ==> verdict.change.run.id == op.runId
    ensures var (after, reply) := MemoryStep(env, limit, s, op);
            && after == MemoryService(Applied(s.runs, limit, op.runId, verdict.change), verdict.minted)
            && reply == if verdict.change.Refuse? then Rejected(verdict.change.error) else verdict.reply
  {
  }

  // The operation replaces the stored run `id`.
  predicate Rewrites(env: Environment, s: MemoryService, op: Operation, id: Guid)
    requires id in s.runs
  {
    !op.StartRun? && op.runId == id && Decide(env, s.minted, op, s.runs[id]).change.Replace?
  }

  // A run that is stored after a step was started by it, is untouched by it, or is
  // what the operation made of it.
  lemma StepRun(env: Environment, limit: nat, s: MemoryService, op: Operation, id: Guid, after: MemoryService)
    requires FreshIdentifiers(env) && Invariant(env, limit, s)
    requires after == MemoryStep(env, limit, s, op).0 && id in after.runs
    ensures || (op.StartRun? && id !in s.runs
            && after.runs[id] == StartedRun(env, op.start, env.newGuid(s.minted), op.startedAt))
            || (id in s.runs && after.runs[id] == s.runs[id] && (Admissible(op) ==> !Rewrites(env, s, op, id)))
            || (id in s.runs && Admissible(op) && Rewrites(env, s, op, id)
                && Decide(env, s.minted, op, s.runs[id]).change == Replace(after.runs[id]))
  {
    if op.StartRun? {
      FreshIsUnknown(env, limit, s);
    } else if Admissible(op) && op.runId in s.runs {
      assert RunOk(env, s.minted, s.runs, op.runId);
      var verdict := Decide(env, s.minted, op, s.runs[op.runId]);
      DecideKeepsId(env, s.minted, op, s.runs[op.runId], verdict);
      StepIsApplied(env, limit, s, op, verdict);
      AppliedRun(s.runs, limit, op.runId, verdict.change, id);
    }
  }

  lemma AppliedRun(runs: Runs, limit: nat, id: Guid, change: Change, other: Guid)
    requires id in runs && other in Applied(runs, limit, id, change) && (change.Replace? ==> change.run.id == id)
    ensures other in runs
    ensures Applied(runs, limit, id, change)[other] == if change.Replace? && other == id then change.run
            else runs[other]
  {
  }

  lemma DecideKeepsId(env: Environment, minted: nat, op: Operation, run: TraceRun, verdict: Verdict)
    requires !op.StartRun? && verdict == Decide(env, minted, op, run)
    ensures verdict.change.Replace? ==> verdict.change.run.id == run.id
  {
    match op
    case RecordEvents(_, requests) =>
      var r := RecordAll(env, run, minted, requests);
    case ImportUsage(_, sourceId, request, now) =>
      ImportKeepsId(env, run, minted, Prepared(env, sourceId, request, now),
                    ImportInto(env, run, minted, Prepared(env, sourceId, request, now)));
    case CompleteRun(_, _) =>
  }

  lemma ImportKeepsId(env: Environment, run: TraceRun, minted: nat, import_: Import, outcome: ImportOutcome)
    requires outcome == ImportInto(env, run, minted, import_)
    ensures outcome.Replaced? ==> outcome.run.id == run.id
  {
  }

  // ----- The two services simulate each other -----

  lemma StartsAgree(env: Environment, limit: nat, s: MemoryService, op: Operation)
    requires Trusted(env) && Invariant(env, limit, s) && op.StartRun?
    ensures var (memory, reply) := MemoryStep(env, limit, s, op);
            var (sqlite, answer) := SqliteStep(env, limit, SqliteService(EncodeAll(s.runs), s.minted), op);
            sqlite == SqliteService(EncodeAll(memory.runs), memory.minted) && answer == reply
  {
    InvariantIsKeyed(env, limit, s);
    var id := env.newGuid(s.minted);
    var run := StartedRun(env, op.start, id, op.startedAt);
    FreshIsUnknown(env, limit, s);
    WritingMirrors(s.runs, run);
    UnfinishedStaysWithinLimit(s.runs, limit, run);
    NothingToPrune(s.runs[id := run], limit);
  }

  lemma UpdatesAgree(runs: Runs, limit: nat, id: Guid, change: Change)
    requires id in runs && Legal(runs[id])
    requires change.Replace? ==> change.run.id == id
    ensures var (after, r) := MemoryUpdate(runs, limit, id, _ => change);
            RowsUpdate(EncodeAll(runs), limit, id, _ => change) == (EncodeAll(after), r)
  {
    LegalRunsReadBack(runs[id]);
    if change.Replace? {
      WritingMirrors(runs, change.run);
      PruningMirrors(runs[id := change.run], limit);
    }
  }

  lemma StepsAgree(env: Environment, limit: nat, s: MemoryService, op: Operation)
    requires Trusted(env) && Timely(op) && Invariant(env, limit, s)
    ensures var (memory, reply) := MemoryStep(env, limit, s, op);
            var (sqlite, answer) := SqliteStep(env, limit, SqliteService(EncodeAll(s.runs), s.minted), op);
            sqlite == SqliteService(EncodeAll(memory.runs), memory.minted) && answer == reply
  {
    if op.StartRun? {
      StartsAgree(env, limit, s, op);
    } else if Admissible(op) && op.runId in s.runs {
      assert RunOk(env, s.minted, s.runs, op.runId);
      LegalRunsReadBack(s.runs[op.runId]);
      DecideKeepsLegal(env, s.minted, op, s.runs[op.runId]);
      UpdatesAgree(s.runs, limit, op.runId, Decide(env, s.minted, op, s.runs[op.runId]).change);
    }
  }

  lemma FreshIsUnknown(env: Environment, limit: nat, s: MemoryService)
    requires FreshIdentifiers(env) && Invariant(env, limit, s)
    ensures env.newGuid(s.minted) !in s.runs
  {
    var id := env.newGuid(s.minted);
    assert id in s.runs ==> RunOk(env, s.minted, s.runs, id);
  }

  // ----- Histories -----

  const EMPTY: MemoryService := MemoryService(map[], 0)

  ghost function MemoryAfter(env: Environment, limit: nat, history: seq<Operation>): MemoryService {
    if history == [] then EMPTY
    else MemoryStep(env, limit, MemoryAfter(env, limit, history[..|history| - 1]), history[|history| - 1]).0
  }

  ghost function MemoryReplies(env: Environment, limit: nat, history: seq<Operation>): seq<Reply> {
    if history == [] then []
    else
      var earlier := history[..|history| - 1];
      MemoryReplies(env, limit, earlier)
          + [MemoryStep(env, limit, MemoryAfter(env, limit, earlier), history[|history| - 1]).1]
  }

  ghost function SqliteAfter(env: Environment, limit: nat, history: seq<Operation>): SqliteService {
    if history == [] then SqliteService(map[], 0)
    else SqliteStep(env, limit, SqliteAfter(env, limit, history[..|history| - 1]), history[|history| - 1]).0
  }

  ghost function SqliteReplies(env: Environment, limit: nat, history: seq<Operation>): seq<Reply> {
    if history == [] then []
    else
      var earlier := history[..|history| - 1];
      SqliteReplies(env, limit, earlier)
          + [SqliteStep(env, limit, SqliteAfter(env, limit, earlier), history[|history| - 1]).1]
  }

  ghost predicate AllTimely(history: seq<Operation>) {
    forall i | 0 <= i < |history| :: Timely(history[i])
  }

  lemma {:induction false} HistoryKeepsInvariant(env: Environment, limit: nat, history: seq<Operation>)
    requires Trusted(env) && AllTimely(history)
    ensures Invariant(env, limit, MemoryAfter(env, limit, history))
  {
    if history == [] {
      assert CompletedKeys(EMPTY.runs) == {};
    } else {
      HistoryKeepsInvariant(env, limit, history[..|history| - 1]);
      StepKeepsInvariant(env, limit, MemoryAfter(env, limit, history[..|history| - 1]), history[|history| - 1]);
    }
  }

  // Whatever the service has written after any history, the store reads back unchanged.
  lemma EverythingWrittenReadsBack(env: Environment, limit: nat, history: seq<Operation>, id: Guid)
    requires Trusted(env) && AllTimely(history) && id in MemoryAfter(env, limit, history).runs
    ensures var run := MemoryAfter(env, limit, history).runs[id];
            Acceptable(run) && Decoded(Encode(run)) == Ok(run)
  {
    HistoryKeepsInvariant(env, limit, history);
    var s := MemoryAfter(env, limit, history);
    assert RunOk(env, s.minted, s.runs, id);
    LegalRunsReadBack(s.runs[id]);
  }

  // For every history the two stores give the same replies and hold the same runs;
  // reopening the database at any point refuses nothing and changes nothing.
  lemma {:induction false} StoresSimulateEachOther(env: Environment, limit: nat, history: seq<Operation>)
    requires Trusted(env) && AllTimely(history)
    ensures var memory, sqlite := MemoryAfter(env, limit, history), SqliteAfter(env, limit, history);
            && sqlite == SqliteService(EncodeAll(memory.runs), memory.minted)
            && SqliteReplies(env, limit, history) == MemoryReplies(env, limit, history)
            && Opened(sqlite.rows, limit) == Ok(sqlite.rows)
  {
    HistoryKeepsInvariant(env, limit, history);
    ReopeningChangesNothing(env, limit, MemoryAfter(env, limit, history));
    if history != [] {
      var earlier := history[..|history| - 1];
      StoresSimulateEachOther(env, limit, earlier);
      HistoryKeepsInvariant(env, limit, earlier);
      StepsAgree(env, limit, MemoryAfter(env, limit, earlier), history[|history| - 1]);
    } else {
      assert EncodeAll(map[]) == map[];
    }
  }

  lemma ReopeningChangesNothing(env: Environment, limit: nat, s: MemoryService)
    requires Invariant(env, limit, s)
    ensures Opened(EncodeAll(s.runs), limit) == Ok(EncodeAll(s.runs))
  {
    var rows := EncodeAll(s.runs);
    forall id | id in rows ensures Decoded(rows[id]).Ok? {
      assert RunOk(env, s.minted, s.runs, id);
      LegalRunsReadBack(s.runs[id]);
    }
    PruningMirrors(s.runs, limit);
    NothingToPrune(s.runs, limit);
  }
}
