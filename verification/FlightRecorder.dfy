/**
 The recorder service as an object (FlightRecorderService.cs): each method reads the
 run, works out the change event by event and hands it to the store.
 */
module FlightRecorder {
  import opened Results
  import opened Trace
  import opened UsageImports
  import opened Policy
  import opened Recording
  import opened Importing
  import opened RunInvariants
  import opened Stores
  import opened Service

  // A start is what adding the new run comes to.
  lemma StartStep(env: Environment, limit: nat, s: MemoryService, op: Operation, run: TraceRun,
                  added: Result<Runs, RecorderError>)
    requires op.StartRun? && Admissible(op) && run == StartedRun(env, op.start, env.newGuid(s.minted), op.startedAt)
    requires added == MemoryAdd(s.runs, limit, run)
    ensures MemoryStep(env, limit, s, op) ==
            match added case Err(e) =>
                (s, Rejected(e)) case Ok(runs) => (MemoryService(runs, s.minted + 1), RunStarted(run))
  {
  }

  class FlightRecorderService {
    const env: Environment
    const store: InMemoryTraceRunStore
    // How many identifiers have been drawn.
    var minted: nat

    constructor (env: Environment, maxCompletedRuns: nat)
      requires Trusted(env) && maxCompletedRuns > 0
      ensures Valid() && State() == EMPTY && fresh(store) && this.env == env
      ensures store.maxCompletedRuns == maxCompletedRuns
    {
      this.env := env;
      store := new InMemoryTraceRunStore(maxCompletedRuns);
      minted := 0;
      new;
      HistoryKeepsInvariant(env, maxCompletedRuns, []);
    }

    ghost function State(): MemoryService
      reads this, store
    {
      MemoryService(store.runs, minted)
    }

    ghost predicate Valid()
      reads this, store
    {
      Trusted(env) && Invariant(env, store.maxCompletedRuns, State())
    }

    method StartRun(request: StartRunRequest, now: Instant) returns (reply: Reply)
      requires Valid()
      modifies this, store
      ensures Valid()
      ensures (State(), reply) ==
              MemoryStep(env, store.maxCompletedRuns, old(State()), Operation.StartRun(request, now))
    {
      ghost var op := Operation.StartRun(request, now);
      StepKeepsInvariant(env, store.maxCompletedRuns, State(), op);
      if !ValidStart(request) {
        return Rejected(ValidationError);
      }
      reply := Insert(StartedRun(env, request, env.newGuid(minted), now), op);
    }

    method Insert(run: TraceRun, ghost op: Operation) returns (reply: Reply)
      requires Valid() && op.StartRun? && Admissible(op)
      requires run == StartedRun(env, op.start, env.newGuid(minted), op.startedAt)
      modifies this, store
      ensures (State(), reply) == MemoryStep(env, store.maxCompletedRuns, old(State()), op)
    {
      InvariantIsKeyed(env, store.maxCompletedRuns, State());
      StartStep(env, store.maxCompletedRuns, State(), op, run, MemoryAdd(store.runs, store.maxCompletedRuns, run));
      var added := store.Add(run);
      match added {
        case Err(e) =>
          reply := Rejected(e);
        case Ok(_) =>
          minted := minted + 1;
          reply := RunStarted(run);
      }
    }

    method RecordEvents(id: Guid, requests: seq<RecordEventRequest>) returns (reply: Reply)
      requires Valid()
      modifies this, store
      ensures Valid()
      ensures (State(), reply) ==
              MemoryStep(env, store.maxCompletedRuns, old(State()), Operation.RecordEvents(id, requests))
    {
      ghost var op := Operation.RecordEvents(id, requests);
      StepKeepsInvariant(env, store.maxCompletedRuns, State(), op);
      var found := store.Get(id);
      if found.None? {
        return NotFound;
      }
      var outcome := RecordInto(env, found.value, minted, requests);
      match outcome {
        case Err(e) =>
          reply := Write(id, Verdict(Refuse(e), Rejected(e), minted), op);
        case Ok(p) =>
          var change := if |p.events| == |found.value.events| then Same else Replace(found.value.(events := p.events));
          reply := Write(id, Verdict(change, Recorded(p.recorded), p.minted), op);
      }
    }

    method ImportUsage(id: Guid, sourceId: string, request: UsageImportRequest, now: Instant) returns (reply: Reply)
      requires Valid() && SinceEpoch(now)
      modifies this, store
      ensures Valid()
      ensures (State(), reply) == MemoryStep(env, store.maxCompletedRuns, old(State()),
                                             Operation.ImportUsage(id, sourceId, request, now))
    {
      ghost var op := Operation.ImportUsage(id, sourceId, request, now);
      StepKeepsInvariant(env, store.maxCompletedRuns, State(), op);
      var valid := Validate(sourceId, request);
      if !valid {
        return Rejected(ValidationError);
      }
      var found := store.Get(id);
      if found.None? {
        return NotFound;
      }
      assert RunOk(env, minted, store.runs, id);
      PreparedIsReady(env, sourceId, request, now);
      var outcome := Importing.ImportUsage(env, found.value, minted, Prepared(env, sourceId, request, now));
      var verdict := match outcome
        case Refused(e) => Verdict(Refuse(e), Rejected(e), minted)
        case Unchanged(result) => Verdict(Same, Imported(result), minted)
        case Replaced(run, more, result) => Verdict(Replace(run), Imported(result), more);
      reply := Write(id, verdict, op);
    }

    method CompleteRun(id: Guid, endedAt: Instant) returns (reply: Reply)
      requires Valid()
      modifies this, store
      ensures Valid()
      ensures (State(), reply) ==
              MemoryStep(env, store.maxCompletedRuns, old(State()), Operation.CompleteRun(id, endedAt))
    {
      ghost var op := Operation.CompleteRun(id, endedAt);
      StepKeepsInvariant(env, store.maxCompletedRuns, State(), op);
      var found := store.Get(id);
      if found.None? {
        return NotFound;
      }
      reply := Write(id, Verdict(Replace(found.value.(endedAt := Some(endedAt))), Completed, minted), op);
    }

    // store.Update with the change that was worked out.
    method Write(id: Guid, verdict: Verdict, ghost op: Operation) returns (reply: Reply)
      requires Valid() && !op.StartRun? && op.runId == id && Admissible(op) && id in store.runs
      requires verdict == Decide(env, minted, op, store.runs[id])
      modifies this, store
      ensures (State(), reply) == MemoryStep(env, store.maxCompletedRuns, old(State()), op)
    {
      InvariantIsKeyed(env, store.maxCompletedRuns, State());
      var updated := store.Update(id, _ => verdict.change);
      minted := verdict.minted;
      reply := ReplyOf(verdict, updated);
    }
  }
}
