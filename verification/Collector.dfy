/**
 The polling client (usage-collector.cjs, UsageCollection): what one collection may do at a
 time, and what the recorder holds once it has acknowledged a snapshot.
 */
module Collector {
  import opened Results
  import opened Text
  import opened Trace
  import opened UsageImports
  import opened Policy
  import opened Normalising
  import opened Importing
  import opened Service
  import opened Metering
  import RetentionHistory
  import opened UsageSnapshots

  // ----- One collection -----

  // How far the synchronisation in flight is: reading the cursor and the source, or
  // waiting for the recorder to acknowledge the import.
  datatype InFlight = NoSync | Reading | Importing

  datatype Collection = Collection(
    inFlight: InFlight,
    starting: bool,       // a start() waits for the synchronisation in flight
    timer: bool,          // polling is scheduled
    closed: bool,
    lastError: bool)

  const NEW := Collection(NoSync, false, false, false, false)

  datatype Step =
    | Start                        // start(): synchronise, then poll
    | Tick                         // the timer fires
    | Read                         // cursor and source are read: send the import, unless closed
    | Acknowledged                 // the recorder's answer matches the snapshot
    | Failed                       // any error on the way
    | Stop                         // stop() or dispose()

  predicate Enabled(c: Collection, step: Step) {
    match step
    case Start => true
    case Tick => c.timer
    case Read => c.inFlight.Reading?
    case Acknowledged => c.inFlight.Importing?
    case Failed => !c.inFlight.NoSync?
    case Stop => true
  }

  // sync(): refused when closed, joined when one is in flight.
  function Sync(c: Collection): Collection {
    if c.closed || !c.inFlight.NoSync? then c else c.(inFlight := Reading)
  }

  function Fail(c: Collection): Collection {
    c.(inFlight := NoSync, starting := false, timer := false, lastError := true)
  }

  function Next(c: Collection, step: Step): Collection {
    match step
    case Start => if c.closed then c else Sync(c).(starting := true)
    case Tick => Sync(c)
    case Read => if c.closed then Fail(c) else c.(inFlight := Importing)
    case Acknowledged =>
      c.(inFlight := NoSync, starting := false, lastError := false, timer := if c.starting then !c.closed else c.timer)
    case Failed => Fail(c)
    case Stop => c.(timer := false, closed := true)
  }

  // Polling goes on only while the collection is open and its last import succeeded.
  ghost predicate Steady(c: Collection) {
    && (c.timer ==> !c.closed && !c.lastError)
    && (c.starting ==> !c.inFlight.NoSync?)
  }

  ghost predicate IsRun(states: seq<Collection>, steps: seq<Step>) {
    && |states| == |steps| + 1 && states[0] == NEW
    && forall i | 0 <= i < |steps| :: Enabled(states[i], steps[i]) && states[i + 1] == Next(states[i], steps[i])
  }

  lemma {:induction false} RunIsSteady(states: seq<Collection>, steps: seq<Step>, n: nat)
    requires IsRun(states, steps) && n <= |steps|
    ensures Steady(states[n])
  {
    if n > 0 {
      RunIsSteady(states, steps, n - 1);
    }
  }

  predicate SendsImport(c: Collection, step: Step) {
    step.Read? && c.inFlight.Reading? && !c.closed
  }

  // From a stop on, nothing is sent any more; and a failure ends polling until start() is
  // called again.
  lemma {:induction false} NothingIsSentAfterStop(states: seq<Collection>, steps: seq<Step>, m: nat, n: nat)
    requires IsRun(states, steps) && m <= n <= |steps| && states[m].closed
    ensures states[n].closed && (n < |steps| ==> !SendsImport(states[n], steps[n]))
    decreases n
  {
    if m < n {
      NothingIsSentAfterStop(states, steps, m, n - 1);
    }
  }

  lemma {:induction false} FailurePausesPolling(states: seq<Collection>, steps: seq<Step>, m: nat, n: nat)
    requires IsRun(states, steps) && m < n <= |steps| && steps[m].Failed?
    requires forall i | m < i < n :: !steps[i].Start?
    ensures !states[n].timer && !states[n].starting && states[n].inFlight.NoSync?
    decreases n
  {
    if m + 1 < n {
      FailurePausesPolling(states, steps, m, n - 1);
    }
  }

  // Between two imports sent there is an answer or a failure: never two at a time.
  lemma {:induction false} OneImportAtATime(states: seq<Collection>, steps: seq<Step>, m: nat, n: nat)
    requires IsRun(states, steps) && m < n < |steps|
    requires SendsImport(states[m], steps[m]) && SendsImport(states[n], steps[n])
    ensures exists i | m < i < n :: steps[i].Acknowledged? || steps[i].Failed?
  {
    if forall i | m < i < n :: !(steps[i].Acknowledged? || steps[i].Failed?) {
      StaysInFlight(states, steps, m, n);
    }
  }

  lemma {:induction false} StaysInFlight(states: seq<Collection>, steps: seq<Step>, m: nat, n: nat)
    requires IsRun(states, steps) && m < n <= |steps| && SendsImport(states[m], steps[m])
    requires forall i | m < i < n :: !(steps[i].Acknowledged? || steps[i].Failed?)
    ensures states[n].inFlight.Importing?
    decreases n
  {
    if m + 1 < n {
      StaysInFlight(states, steps, m, n - 1);
    }
  }

  class UsageCollection {
    var inFlight: InFlight
    var starting: bool
    var timer: bool
    var closed: bool
    var lastError: bool

    constructor ()
      ensures State() == NEW
    {
      inFlight, starting, timer, closed, lastError := NoSync, false, false, false, false;
    }

    function State(): Collection
      reads this
    {
      Collection(inFlight, starting, timer, closed, lastError)
    }

    method Begin(byStart: bool)
      requires byStart || timer
      modifies this
      ensures State() == Next(old(State()), if byStart then Start else Tick)
    {
      if closed {
        return;
      }
      if inFlight.NoSync? {
        inFlight := Reading;
      }
      if byStart {
        starting := true;
      }
    }

    // importSnapshot, once the cursor and the source have been read.
    method SendImport() returns (sent: bool)
      requires inFlight.Reading?
      modifies this
      ensures State() == Next(old(State()), Read) && sent == SendsImport(old(State()), Read)
    {
      if closed {
        inFlight, starting, timer, lastError := NoSync, false, false, true;
        return false;
      }
      inFlight := Importing;
      return true;
    }

    method Finish(acknowledged: bool)
      requires if acknowledged then inFlight.Importing? else !inFlight.NoSync?
      modifies this
      ensures State() == Next(old(State()), if acknowledged then Acknowledged else Step.Failed)
    {
      inFlight := NoSync;
      if acknowledged {
        lastError := false;
        if starting && !closed {
          timer := true;
        } else if starting {
          timer := false;
        }
      } else {
        lastError := true;
        timer := false;
      }
      starting := false;
    }

    method Close()
      modifies this
      ensures State() == Next(old(State()), Step.Stop)
    {
      timer := false;
      closed := true;
    }
  }

  // ----- What an acknowledgement means -----

  // What importSnapshot checks of the recorder's answer.
  predicate Matches(s: UsageSnapshot, request: UsageImportRequest, result: ImportResult) {
    result.sourceId == s.sourceId && result.revision == s.revision && result.importedCount == |request.observations|
  }

  // The request one synchronisation sends for a snapshot.
  ghost predicate Sends(op: Operation, s: UsageSnapshot) {
    && op.ImportUsage? && op.sourceId == s.sourceId
    && exists expected :: ImportBody(s, expected) == Some(op.import_)
  }

  lemma SentSnapshot(op: Operation, s: UsageSnapshot)
    requires Sends(op, s)
    ensures op.import_.observations == s.observations && op.import_.revision == s.revision
    ensures Lower(s.sourceId) == s.sourceId && Lower(s.revision) == s.revision
  {
    LowerFixesLowerHex(s.sourceId);
    LowerFixesLowerHex(s.revision);
  }

  // Whenever the recorder acknowledges an import, the answer matches the snapshot, so the
  // client never takes a good import for a failed one.
  lemma AcknowledgementsMatch(env: Environment, limit: nat, state: MemoryService, op: Operation, s: UsageSnapshot)
    requires Sends(op, s) && MemoryStep(env, limit, state, op).1.Imported?
    ensures Matches(s, op.import_, MemoryStep(env, limit, state, op).1.result)
  {
    SentSnapshot(op, s);
    var import_ := ImportOf(env, op);
    assert |import_.observations| == |op.import_.observations|;
    var verdict := Decide(env, state.minted, op, state.runs[op.runId]);
    ImportAnswers(env, state.runs[op.runId], state.minted, import_,
        ImportInto(env, state.runs[op.runId], state.minted, import_));
  }

  lemma ImportAnswers(env: Environment, run: TraceRun, minted: nat, import_: Import, outcome: ImportOutcome)
    requires outcome == ImportInto(env, run, minted, import_)
    ensures outcome.Unchanged? ==>
            outcome.result == ImportResult(import_.sourceId, import_.revision, |import_.observations|, false)
    ensures outcome.Replaced? ==>
            outcome.result == ImportResult(import_.sourceId, import_.revision, |import_.observations|, true)
  {
  }

  // The fingerprint tells what is imported from the snapshot the run accepted last.
  ghost predicate ToldFromLast(env: Environment, limit: nat, history: seq<Operation>, op: Operation)
    requires op.ImportUsage?
  {
    var last := LastAccepted(env, limit, history, op.runId);
    last.Some? ==> ToldApart(env, Content(last.value), Content(ImportOf(env, op)))
  }

  // An acknowledged import leaves the run with exactly the totals of the snapshot that was
  // read, whether it was new or already there, and whatever happened to the run before.
  lemma AcknowledgedSnapshotIsTheRun(env: Environment, limit: nat, history: seq<Operation>, op: Operation,
                                     s: UsageSnapshot, m: Measure)
    requires Trusted(env) && AllTimely(history) && Timely(op) && Sends(op, s)
    requires ToldFromLast(env, limit, history, op)
    requires MemoryStep(env, limit, MemoryAfter(env, limit, history), op).1.Imported?
    ensures var after := MemoryAfter(env, limit, history + [op]);
            op.runId in after.runs && RunTotal(after.runs[op.runId], m) == SnapshotTotal(s.observations, m)
  {
    var before := MemoryAfter(env, limit, history);
    var (after, reply) := MemoryStep(env, limit, before, op);
    assert (history + [op])[..|history|] == history && (history + [op])[|history|] == op;
    SentSnapshot(op, s);
    HistoryKeepsInvariant(env, limit, history);
    var run := RetentionHistory.WritingStep(env, limit, before, op, after);
    TotalsAreTheLastSnapshots(env, limit, history + [op], op.runId, m);
    AcknowledgedIsLast(env, limit, history, op);
    NormaliseKeepsTotals(op.import_.observations, m);
  }

  lemma AcknowledgedIsLast(env: Environment, limit: nat, history: seq<Operation>, op: Operation)
    requires Trusted(env) && AllTimely(history) && op.ImportUsage?
    requires ToldFromLast(env, limit, history, op)
    requires MemoryStep(env, limit, MemoryAfter(env, limit, history), op).1.Imported?
    ensures LastAccepted(env, limit, history + [op], op.runId).Some?
    ensures LastAccepted(env, limit, history + [op], op.runId).value.observations == Normalise(op.import_.observations)
  {
    var before := MemoryAfter(env, limit, history);
    var reply := MemoryStep(env, limit, before, op).1;
    assert (history + [op])[..|history|] == history && (history + [op])[|history|] == op;
    if !reply.result.changed {
      UnchangedHasLast(env, limit, history, op);
      RetryIsExact(env, limit, history, op);
    }
  }

  lemma UnchangedHasLast(env: Environment, limit: nat, history: seq<Operation>, op: Operation)
    requires Trusted(env) && AllTimely(history) && op.ImportUsage?
    requires var reply := MemoryStep(env, limit, MemoryAfter(env, limit, history), op).1;
             reply.Imported? && !reply.result.changed
    ensures Admissible(op) && op.runId in MemoryAfter(env, limit, history).runs
    ensures LastAccepted(env, limit, history, op.runId).Some?
    ensures LastAccepted(env, limit, history, op.runId).value.revision == ImportOf(env, op).revision
  {
    var s := MemoryAfter(env, limit, history);
    HistoryAccounts(env, limit, history, op.runId);
    UnchangedKeepsRevision(env, s.runs[op.runId], s.minted, ImportOf(env, op),
                           ImportInto(env, s.runs[op.runId], s.minted, ImportOf(env, op)));
  }

  lemma UnchangedKeepsRevision(env: Environment, run: TraceRun, minted: nat, import_: Import, outcome: ImportOutcome)
    requires outcome == ImportInto(env, run, minted, import_)
    ensures outcome.Unchanged? ==> RevisionOf(run) == Some(import_.revision)
    ensures outcome.Replaced? ==> outcome.result.changed
  {
  }
}
