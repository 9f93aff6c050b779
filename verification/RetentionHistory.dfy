/**
 Pruning after every completion against selecting once: the completed runs a store
 holds after a history are compared with the latest of all runs ever completed in it.
 */
module RetentionHistory {
  import opened Results
  import opened Trace
  import opened Policy
  import opened Recording
  import opened Importing
  import opened RunInvariants
  import opened Retention
  import opened Stores
  import opened Service
  import Evolution

  // What an observer outside the store remembers: every run ever started, and the
  // latest completion of every run ever completed, pruned or not.
  datatype Ledger = Ledger(started: set<Guid>, ever: map<Guid, Key>) {
    function Keys(): set<Key> {
      set id | id in ever :: ever[id]
    }
  }

  function CompletionKey(s: MemoryService, op: Operation): Key
    requires op.CompleteRun? && op.runId in s.runs
  {
    Key(op.endedAt.utc, s.runs[op.runId].startedAt.utc, op.runId)
  }

  ghost function Noted(env: Environment, limit: nat, s: MemoryService, op: Operation, ledger: Ledger): Ledger {
    if op.StartRun? then
      match MemoryStep(env, limit, s, op).1
      case RunStarted(run) => ledger.(started := ledger.started + {run.id})
      case _ => ledger
    else if op.CompleteRun? && op.runId in s.runs then
      ledger.(ever := ledger.ever[op.runId := CompletionKey(s, op)])
    else ledger
  }

  ghost function LedgerAfter(env: Environment, limit: nat, history: seq<Operation>): Ledger {
    if history == [] then Ledger({}, map[])
    else
      var earlier := history[..|history| - 1];
      Noted(env, limit, MemoryAfter(env, limit, earlier), history[|history| - 1], LedgerAfter(env, limit, earlier))
  }

  // The ledger is true of the store: what is stored and completed is noted as it is, and
  // what was started and never completed is stored.
  ghost predicate Tracked(env: Environment, s: MemoryService, ledger: Ledger) {
    && (forall id | id in ledger.ever :: ledger.ever[id].id == id && MintedBy(env, s.minted, id))
    && (forall id | id in s.runs && s.runs[id].endedAt.Some? ::
       id in ledger.ever && ledger.ever[id] == KeyOf(s.runs, id))
    && (forall id | id in s.runs && id in ledger.ever :: s.runs[id].endedAt.Some?)
    && (forall id | id in ledger.started && id !in ledger.ever :: id in s.runs)
  }

  // The store holds exactly the latest of all completed runs.
  ghost predicate Agrees(limit: nat, s: MemoryService, ledger: Ledger) {
    CompletedKeys(s.runs) == Latest(ledger.Keys(), limit)
  }

  // A completed run that is completed again does not fall behind a run pruned earlier.
  ghost predicate FallsBehindNone(limit: nat, s: MemoryService, op: Operation, ledger: Ledger) {
    op.CompleteRun? && op.runId in s.runs && s.runs[op.runId].endedAt.Some? ==>
      forall r | r in ledger.Keys() && r !in Latest(ledger.Keys(), limit) :: !Ahead(r, CompletionKey(s, op))
  }

  // ----- Steps that complete nothing -----

  // Writing a run with the ending it had changes no key.
  lemma SameEndingSameKeys(runs: Runs, id: Guid, run: TraceRun)
    requires Keyed(runs) && id in runs && run.id == id
    requires run.endedAt == runs[id].endedAt && run.startedAt == runs[id].startedAt
    ensures CompletedKeys(runs[id := run]) == CompletedKeys(runs)
  {
    var after := runs[id := run];
    forall k ensures k in CompletedKeys(after) <==> k in CompletedKeys(runs) {
      if k in CompletedKeys(after) {
        var i :| i in after && IsCompleted(after, i) && KeyOf(after, i) == k;
        assert IsCompleted(runs, i) && KeyOf(runs, i) == k;
      }
      if k in CompletedKeys(runs) {
        var i :| i in runs && IsCompleted(runs, i) && KeyOf(runs, i) == k;
        assert IsCompleted(after, i) && KeyOf(after, i) == k;
      }
    }
  }

  // Adding an unfinished run changes no key.
  lemma UnfinishedSameKeys(runs: Runs, run: TraceRun)
    requires run.id !in runs && run.endedAt.None?
    ensures CompletedKeys(runs[run.id := run]) == CompletedKeys(runs)
  {
    var after := runs[run.id := run];
    forall k ensures k in CompletedKeys(after) <==> k in CompletedKeys(runs) {
      if k in CompletedKeys(after) {
        var i :| i in after && IsCompleted(after, i) && KeyOf(after, i) == k;
        assert IsCompleted(runs, i) && KeyOf(runs, i) == k;
      }
      if k in CompletedKeys(runs) {
        var i :| i in runs && IsCompleted(runs, i) && KeyOf(runs, i) == k;
        assert IsCompleted(after, i) && KeyOf(after, i) == k;
      }
    }
  }

  // The keys of a store in which run `id` has just been completed.
  lemma CompletedAgainKeys(runs: Runs, id: Guid, run: TraceRun)
    requires Keyed(runs) && id in runs && run.id == id && run.endedAt.Some?
    ensures CompletedKeys(runs[id := run]) ==
            CompletedKeys(runs) - (if IsCompleted(runs, id) then {KeyOf(runs, id)} else {})
            + {Key(run.endedAt.value.utc, run.startedAt.utc, id)}
  {
    var after := runs[id := run];
    var key := Key(run.endedAt.value.utc, run.startedAt.utc, id);
    forall k ensures k in CompletedKeys(after) <==>
      k == key || (k in CompletedKeys(runs) && !(IsCompleted(runs, id) && k == KeyOf(runs, id)))
    {
      if k in CompletedKeys(after) {
        var i :| i in after && IsCompleted(after, i) && KeyOf(after, i) == k;
        if i != id {
          assert IsCompleted(runs, i) && KeyOf(runs, i) == k && k.id == i;
        }
      }
      if k in CompletedKeys(runs) && !(IsCompleted(runs, id) && k == KeyOf(runs, id)) {
        var i :| i in runs && IsCompleted(runs, i) && KeyOf(runs, i) == k;
        assert IsCompleted(after, i) && KeyOf(after, i) == k;
      }
      assert IsCompleted(after, id) && KeyOf(after, id) == key;
    }
  }

  lemma NotedKeys(ledger: Ledger, id: Guid, key: Key)
    requires forall i | i in ledger.ever :: ledger.ever[i].id == i
    requires key.id == id
    ensures Ledger(ledger.started, ledger.ever[id := key]).Keys() ==
            ledger.Keys() - (if id in ledger.ever then {ledger.ever[id]} else {}) + {key}
  {
    var after := Ledger(ledger.started, ledger.ever[id := key]);
    forall k ensures k in after.Keys() <==>
      k == key || (k in ledger.Keys() && !(id in ledger.ever && k == ledger.ever[id]))
    {
      if k in after.Keys() {
        var i :| i in after.ever && after.ever[i] == k;
        if i != id { assert ledger.ever[i] == k && k.id == i; }
      }
      if k in ledger.Keys() && !(id in ledger.ever && k == ledger.ever[id]) {
        var i :| i in ledger.ever && ledger.ever[i] == k;
        assert after.ever[i] == k;
      }
      assert after.ever[id] == key;
    }
  }

  // The keys before and after a completion, in the store and in the ledger.
  lemma KeysAfterCompletion(limit: nat, s: MemoryService, ledger: Ledger, env: Environment, op: Operation,
                            run: TraceRun)
    returns (before: set<Key>, key: Key)
    requires Keyed(s.runs) && Tracked(env, s, ledger)
    requires op.CompleteRun? && op.runId in s.runs && run == s.runs[op.runId].(endedAt := Some(op.endedAt))
    ensures key == CompletionKey(s, op)
    ensures before == if s.runs[op.runId].endedAt.Some? then {KeyOf(s.runs, op.runId)} else {}
    ensures before <= CompletedKeys(s.runs) && before <= ledger.Keys() && key !in ledger.Keys() - before
    ensures CompletedKeys(Retained(s.runs[op.runId := run], limit)) ==
            Latest(CompletedKeys(s.runs) - before + {key}, limit)
    ensures Ledger(ledger.started, ledger.ever[op.runId := key]).Keys() == ledger.Keys() - before + {key}
  {
    var id := op.runId;
    key := CompletionKey(s, op);
    before := if s.runs[id].endedAt.Some? then {KeyOf(s.runs, id)} else {};
    CompletedAgainKeys(s.runs, id, run);
    NotedKeys(ledger, id, key);
    KeysOfRetained(s.runs[id := run], limit);
    if s.runs[id].endedAt.Some? {
      assert IsCompleted(s.runs, id);
      assert ledger.ever[id] == KeyOf(s.runs, id);
    }
    KeysHaveIds(ledger);
  }

  // A completion keeps the store in agreement exactly when the run does not fall behind
  // one that was pruned.
  lemma CompletionAgreesExactly(limit: nat, s: MemoryService, ledger: Ledger, env: Environment, op: Operation,
                                run: TraceRun)
    requires Keyed(s.runs) && Tracked(env, s, ledger) && Agrees(limit, s, ledger)
    requires op.CompleteRun? && op.runId in s.runs && run == s.runs[op.runId].(endedAt := Some(op.endedAt))
    ensures Agrees(limit, MemoryService(Retained(s.runs[op.runId := run], limit), s.minted),
                   Ledger(ledger.started, ledger.ever[op.runId := CompletionKey(s, op)]))
            <==> FallsBehindNone(limit, s, op, ledger)
  {
    var before, key := KeysAfterCompletion(limit, s, ledger, env, op, run);
    if s.runs[op.runId].endedAt.Some? {
      assert before == {KeyOf(s.runs, op.runId)};
      RecompletingAgrees(ledger.Keys(), limit, KeyOf(s.runs, op.runId), key);
    } else {
      FirstCompletionAgrees(ledger.Keys(), CompletedKeys(s.runs), before, limit, key);
    }
  }

  lemma FirstCompletionAgrees(ever: set<Key>, stored: set<Key>, before: set<Key>, n: nat, k: Key)
    requires before == {} && stored == Latest(ever, n) && k !in ever - before
    ensures Latest(stored - before + {k}, n) == Latest(ever - before + {k}, n)
  {
    assert stored - before == stored && ever - before == ever;
    CompletingAgrees(ever, n, k);
  }

  lemma KeysHaveIds(ledger: Ledger)
    requires forall i | i in ledger.ever :: ledger.ever[i].id == i
    ensures forall k | k in ledger.Keys() :: k.id in ledger.ever && ledger.ever[k.id] == k
  {
  }

  // ----- What each step does -----

  lemma DecideKeepsTimes(env: Environment, minted: nat, op: Operation, run: TraceRun, verdict: Verdict)
    requires (op.RecordEvents? || op.ImportUsage?) && verdict == Decide(env, minted, op, run)
    ensures verdict.change.Replace? ==>
              verdict.change.run.endedAt == run.endedAt && verdict.change.run.startedAt == run.startedAt
  {
    match op
    case RecordEvents(_, requests) =>
      var r := RecordAll(env, run, minted, requests);
    case ImportUsage(_, sourceId, request, now) =>
      ImportKeepsTimes(env, run, minted, Prepared(env, sourceId, request, now),
                       ImportInto(env, run, minted, Prepared(env, sourceId, request, now)));
    case StartRun(_, _) =>
    case CompleteRun(_, _) =>
  }

  lemma ImportKeepsTimes(env: Environment, run: TraceRun, minted: nat, import_: Import, outcome: ImportOutcome)
    requires outcome == ImportInto(env, run, minted, import_)
    ensures outcome.Replaced? ==> outcome.run.endedAt == run.endedAt && outcome.run.startedAt == run.startedAt
  {
  }

  // Recording and importing write one run back, with its times, or write nothing.
  lemma WritingStep(env: Environment, limit: nat, s: MemoryService, op: Operation, after: MemoryService)
    returns (run: TraceRun)
    requires Invariant(env, limit, s) && (op.RecordEvents? || op.ImportUsage?)
    requires Admissible(op) && op.runId in s.runs && after == MemoryStep(env, limit, s, op).0
    ensures run.id == op.runId && after.runs == s.runs[op.runId := run]
    ensures run.endedAt == s.runs[op.runId].endedAt && run.startedAt == s.runs[op.runId].startedAt
  {
    var id := op.runId;
    InvariantIsKeyed(env, limit, s);
    var verdict := Decide(env, s.minted, op, s.runs[id]);
    DecideKeepsId(env, s.minted, op, s.runs[id], verdict);
    StepIsApplied(env, limit, s, op, verdict);
    DecideKeepsTimes(env, s.minted, op, s.runs[id], verdict);
    run := s.runs[id];
    if verdict.change.Replace? {
      run := verdict.change.run;
      Evolution.SameKeyStaysStored(s.runs, limit, run);
    }
  }

  lemma StartingStep(env: Environment, limit: nat, s: MemoryService, op: Operation, run: TraceRun)
    requires FreshIdentifiers(env) && Invariant(env, limit, s) && op.StartRun? && Admissible(op)
    requires run == StartedRun(env, op.start, env.newGuid(s.minted), op.startedAt)
    ensures run.id !in s.runs
    ensures MemoryStep(env, limit, s, op) == (MemoryService(s.runs[run.id := run], s.minted + 1), RunStarted(run))
  {
    InvariantIsKeyed(env, limit, s);
    FreshIsUnknown(env, limit, s);
    UnfinishedStaysWithinLimit(s.runs, limit, run);
    NothingToPrune(s.runs[run.id := run], limit);
  }

  lemma CompletingStep(env: Environment, limit: nat, s: MemoryService, op: Operation, run: TraceRun)
    requires Invariant(env, limit, s) && op.CompleteRun? && op.runId in s.runs
    requires run == s.runs[op.runId].(endedAt := Some(op.endedAt))
    ensures MemoryStep(env, limit, s, op).0 == MemoryService(Retained(s.runs[op.runId := run], limit), s.minted)
  {
    InvariantIsKeyed(env, limit, s);
  }

  lemma TrackedLonger(env: Environment, s: MemoryService, ledger: Ledger, more: nat)
    requires Tracked(env, s, ledger) && s.minted <= more
    ensures Tracked(env, MemoryService(s.runs, more), ledger)
  {
    forall id | id in ledger.ever ensures MintedBy(env, more, id) {
      MintedByMore(env, s.minted, more, id);
    }
  }

  lemma RewrittenIsTracked(env: Environment, s: MemoryService, ledger: Ledger, run: TraceRun)
    requires Keyed(s.runs) && Tracked(env, s, ledger) && run.id in s.runs
    requires run.endedAt == s.runs[run.id].endedAt && run.startedAt == s.runs[run.id].startedAt
    ensures Tracked(env, MemoryService(s.runs[run.id := run], s.minted), ledger)
  {
    forall id | id in s.runs && s.runs[run.id := run][id].endedAt.Some?
      ensures id in ledger.ever && ledger.ever[id] == KeyOf(s.runs[run.id := run], id)
    {
      assert KeyOf(s.runs[run.id := run], id) == KeyOf(s.runs, id);
    }
  }

  lemma StartedIsTracked(env: Environment, s: MemoryService, ledger: Ledger, run: TraceRun)
    requires FreshIdentifiers(env) && Tracked(env, s, ledger)
    requires run.id == env.newGuid(s.minted) && run.endedAt.None? && run.id !in s.runs
    ensures Tracked(env, MemoryService(s.runs[run.id := run], s.minted), ledger.(started := ledger.started + {run.id}))
  {
    forall id | id in s.runs && s.runs[run.id := run][id].endedAt.Some?
      ensures id in ledger.ever && ledger.ever[id] == KeyOf(s.runs[run.id := run], id)
    {
      assert KeyOf(s.runs[run.id := run], id) == KeyOf(s.runs, id);
    }
    assert run.id in ledger.ever ==> MintedBy(env, s.minted, run.id);
  }

  lemma CompletedIsTracked(env: Environment, limit: nat, s: MemoryService, ledger: Ledger, op: Operation, run: TraceRun)
    requires Keyed(s.runs) && Tracked(env, s, ledger)
    requires op.CompleteRun? && op.runId in s.runs && run == s.runs[op.runId].(endedAt := Some(op.endedAt))
    requires MintedBy(env, s.minted, op.runId)
    ensures Tracked(env, MemoryService(Retained(s.runs[op.runId := run], limit), s.minted),
                    Ledger(ledger.started, ledger.ever[op.runId := CompletionKey(s, op)]))
  {
    var written := s.runs[op.runId := run];
    var after := Retained(written, limit);
    var ever := ledger.ever[op.runId := CompletionKey(s, op)];
    forall id | id in after && after[id].endedAt.Some?
      ensures id in ever && ever[id] == KeyOf(after, id)
    {
      assert KeyOf(after, id) == KeyOf(written, id);
      if id != op.runId {
        assert KeyOf(written, id) == KeyOf(s.runs, id);
      }
    }
    forall id | id in ledger.started && id !in ever ensures id in after {
      assert id in s.runs && !IsCompleted(written, id);
    }
  }

  lemma StepTracks(env: Environment, limit: nat, s: MemoryService, op: Operation, ledger: Ledger)
    requires Trusted(env) && Timely(op) && Invariant(env, limit, s) && Tracked(env, s, ledger)
    ensures Tracked(env, MemoryStep(env, limit, s, op).0, Noted(env, limit, s, op, ledger))
    ensures Agrees(limit, s, ledger) ==>
      (Agrees(limit, MemoryStep(env, limit, s, op).0, Noted(env, limit, s, op, ledger)) <==>
          FallsBehindNone(limit, s, op, ledger))
  {
    InvariantIsKeyed(env, limit, s);
    StepKeepsInvariant(env, limit, s, op);
    if !Admissible(op) || (!op.StartRun? && op.runId !in s.runs) {
    } else {
      match op
      case StartRun(start, startedAt) =>
        var run := StartedRun(env, start, env.newGuid(s.minted), startedAt);
        StartingStep(env, limit, s, op, run);
        StartedIsTracked(env, s, ledger, run);
        TrackedLonger(env, MemoryService(s.runs[run.id := run], s.minted),
            ledger.(started := ledger.started + {run.id}), s.minted + 1);
        UnfinishedSameKeys(s.runs, run);
      case CompleteRun(id, endedAt) =>
        var run := s.runs[id].(endedAt := Some(endedAt));
        assert RunOk(env, s.minted, s.runs, id);
        CompletingStep(env, limit, s, op, run);
        CompletedIsTracked(env, limit, s, ledger, op, run);
        if Agrees(limit, s, ledger) {
          CompletionAgreesExactly(limit, s, ledger, env, op, run);
        }
      case _ =>
        var after := MemoryStep(env, limit, s, op).0;
        var run := WritingStep(env, limit, s, op, after);
        RewrittenIsTracked(env, s, ledger, run);
        TrackedLonger(env, MemoryService(after.runs, s.minted), ledger, after.minted);
        SameEndingSameKeys(s.runs, run.id, run);
    }
  }

  // ----- Whole histories -----

  lemma {:induction false} HistoryTracks(env: Environment, limit: nat, history: seq<Operation>)
    requires Trusted(env) && AllTimely(history)
    ensures Tracked(env, MemoryAfter(env, limit, history), LedgerAfter(env, limit, history))
  {
    if history != [] {
      var earlier := history[..|history| - 1];
      HistoryTracks(env, limit, earlier);
      HistoryKeepsInvariant(env, limit, earlier);
      StepTracks(env, limit, MemoryAfter(env, limit, earlier), history[|history| - 1],
          LedgerAfter(env, limit, earlier));
    }
  }

  // Every run that was started and never completed is stored, unfinished.
  lemma UnfinishedRunsAreStored(env: Environment, limit: nat, history: seq<Operation>, id: Guid)
    requires Trusted(env) && AllTimely(history)
    requires id in LedgerAfter(env, limit, history).started && id !in LedgerAfter(env, limit, history).ever
    ensures var s := MemoryAfter(env, limit, history); id in s.runs && s.runs[id].endedAt.None?
  {
    HistoryTracks(env, limit, history);
  }

  ghost predicate AgreesAfter(env: Environment, limit: nat, history: seq<Operation>) {
    Agrees(limit, MemoryAfter(env, limit, history), LedgerAfter(env, limit, history))
  }

  ghost predicate FallsBehindNoneAt(env: Environment, limit: nat, history: seq<Operation>, n: nat)
    requires n < |history|
  {
    FallsBehindNone(limit, MemoryAfter(env, limit, history[..n]), history[n], LedgerAfter(env, limit, history[..n]))
  }

  lemma OneMoreAgrees(env: Environment, limit: nat, history: seq<Operation>, n: nat)
    requires Trusted(env) && AllTimely(history) && n < |history|
    requires AgreesAfter(env, limit, history[..n])
    ensures AgreesAfter(env, limit, history[..n + 1]) <==> FallsBehindNoneAt(env, limit, history, n)
  {
    var earlier := history[..n];
    assert history[..n + 1][..n] == earlier;
    HistoryTracks(env, limit, earlier);
    HistoryKeepsInvariant(env, limit, earlier);
    StepTracks(env, limit, MemoryAfter(env, limit, earlier), history[n], LedgerAfter(env, limit, earlier));
  }

  lemma {:induction false} PrefixesAgree(env: Environment, limit: nat, history: seq<Operation>, n: nat)
    requires Trusted(env) && AllTimely(history) && n <= |history|
    requires forall k | 0 <= k < n :: FallsBehindNoneAt(env, limit, history, k)
    ensures AgreesAfter(env, limit, history[..n])
  {
    if n == 0 {
      FewAreAllLatest({}, limit);
      assert CompletedKeys(EMPTY.runs) == {} && Ledger({}, map[]).Keys() == {};
    } else {
      PrefixesAgree(env, limit, history, n - 1);
      OneMoreAgrees(env, limit, history, n - 1);
    }
  }

  // Throughout a history the stored completed runs are the latest of all runs ever
  // completed exactly when no repeated completion falls behind a run pruned before it.
  lemma PruningAgreesExactly(env: Environment, limit: nat, history: seq<Operation>)
    requires Trusted(env) && AllTimely(history)
    ensures (forall n | 0 <= n <= |history| :: AgreesAfter(env, limit, history[..n])) <==>
            (forall n | 0 <= n < |history| :: FallsBehindNoneAt(env, limit, history, n))
  {
    if forall n | 0 <= n <= |history| :: AgreesAfter(env, limit, history[..n]) {
      forall n | 0 <= n < |history| ensures FallsBehindNoneAt(env, limit, history, n) {
        assert AgreesAfter(env, limit, history[..n]) && AgreesAfter(env, limit, history[..n + 1]);
        OneMoreAgrees(env, limit, history, n);
      }
    }
    if forall n | 0 <= n < |history| :: FallsBehindNoneAt(env, limit, history, n) {
      forall n | 0 <= n <= |history| ensures AgreesAfter(env, limit, history[..n]) {
        PrefixesAgree(env, limit, history, n);
      }
    }
  }

  // No run is completed again with an earlier time than it has.
  ghost predicate NeverEarlierAt(env: Environment, limit: nat, history: seq<Operation>, n: nat)
    requires n < |history|
  {
    var s, op := MemoryAfter(env, limit, history[..n]), history[n];
    op.CompleteRun? && op.runId in s.runs && s.runs[op.runId].endedAt.Some? ==>
      op.endedAt.utc >= s.runs[op.runId].endedAt.value.utc
  }

  lemma {:induction false} NeverEarlierPrefixAgrees(env: Environment, limit: nat, history: seq<Operation>, n: nat)
    requires Trusted(env) && AllTimely(history) && n <= |history|
    requires forall k | 0 <= k < n :: NeverEarlierAt(env, limit, history, k)
    ensures AgreesAfter(env, limit, history[..n])
  {
    if n == 0 {
      PrefixesAgree(env, limit, history, 0);
    } else {
      NeverEarlierPrefixAgrees(env, limit, history, n - 1);
      assert NeverEarlierAt(env, limit, history, n - 1);
      NeverEarlierFallsBehindNone(env, limit, history, n - 1);
      OneMoreAgrees(env, limit, history, n - 1);
    }
  }

  lemma NeverEarlierFallsBehindNone(env: Environment, limit: nat, history: seq<Operation>, n: nat)
    requires Trusted(env) && AllTimely(history) && n < |history|
    requires AgreesAfter(env, limit, history[..n]) && NeverEarlierAt(env, limit, history, n)
    ensures FallsBehindNoneAt(env, limit, history, n)
  {
    var s, op, ledger := MemoryAfter(env, limit, history[..n]), history[n], LedgerAfter(env, limit, history[..n]);
    HistoryKeepsInvariant(env, limit, history[..n]);
    if op.CompleteRun? && op.runId in s.runs && s.runs[op.runId].endedAt.Some? {
      assert RunOk(env, s.minted, s.runs, op.runId);
      assert IsCompleted(s.runs, op.runId) && KeyOf(s.runs, op.runId) in CompletedKeys(s.runs);
      LaterStaysAhead(ledger.Keys(), limit, KeyOf(s.runs, op.runId), CompletionKey(s, op));
    }
  }

  // When no completion time moves earlier, pruning step by step is one selection.
  lemma IncrementalPruningIsOfflineSelection(env: Environment, limit: nat, history: seq<Operation>)
    requires Trusted(env) && AllTimely(history)
    requires forall n | 0 <= n < |history| :: NeverEarlierAt(env, limit, history, n)
    ensures CompletedKeys(MemoryAfter(env, limit, history).runs) ==
            Latest(LedgerAfter(env, limit, history).Keys(), limit)
  {
    NeverEarlierPrefixAgrees(env, limit, history, |history|);
    assert history[..|history|] == history;
  }

  // ----- A completion that moves earlier -----

  lemma TwoKeys(a: Key, b: Key)
    requires Ahead(b, a)
    ensures Latest({a, b}, 1) == {b}
  {
    assert AheadOf({a, b}, a) == {b} && AheadOf({a, b}, b) == {};
  }

  function EarlierCompletion(env: Environment, start: StartRunRequest): seq<Operation> {
    var a, b, now := env.newGuid(0), env.newGuid(1), Instant(0, 0);
    [StartRun(start, now), StartRun(start, now), CompleteRun(a, Instant(10, 0)),
     CompleteRun(b, Instant(20, 0)), CompleteRun(b, Instant(5, 0))]
  }

  lemma AfterOne(env: Environment, limit: nat, history: seq<Operation>, n: nat)
    requires n < |history|
    ensures MemoryAfter(env, limit, history[..n + 1]) ==
            MemoryStep(env, limit, MemoryAfter(env, limit, history[..n]), history[n]).0
    ensures LedgerAfter(env, limit, history[..n + 1]) ==
            Noted(env, limit, MemoryAfter(env, limit, history[..n]), history[n], LedgerAfter(env, limit, history[..n]))
  {
    assert history[..n + 1][..n] == history[..n];
  }

  lemma StartNotes(env: Environment, limit: nat, history: seq<Operation>, n: nat)
    requires Trusted(env) && AllTimely(history) && n < |history|
    requires history[n].StartRun? && Admissible(history[n])
    ensures var s, ledger := MemoryAfter(env, limit, history[..n]), LedgerAfter(env, limit, history[..n]);
            && MemoryAfter(env, limit, history[..n + 1]).minted == s.minted + 1
            && LedgerAfter(env, limit, history[..n + 1]) == ledger.(started := ledger.started + {env.newGuid(s.minted)})
  {
    var s, op := MemoryAfter(env, limit, history[..n]), history[n];
    HistoryKeepsInvariant(env, limit, history[..n]);
    AfterOne(env, limit, history, n);
    StartingStep(env, limit, s, op, StartedRun(env, op.start, env.newGuid(s.minted), op.startedAt));
  }

  // Completing a run that has not been completed before: it is stored, and noted.
  lemma FirstCompletionNotes(env: Environment, limit: nat, history: seq<Operation>, n: nat)
    requires Trusted(env) && AllTimely(history) && n < |history| && history[n].CompleteRun?
    requires history[n].runId in LedgerAfter(env, limit, history[..n]).started
    requires history[n].runId !in LedgerAfter(env, limit, history[..n]).ever
    ensures FallsBehindNoneAt(env, limit, history, n)
    ensures var id, ledger := history[n].runId, LedgerAfter(env, limit, history[..n]);
            exists key: Key :: key.id == id && key.end == history[n].endedAt.utc
                     && LedgerAfter(env, limit, history[..n + 1]) == ledger.(ever := ledger.ever[id := key])
  {
    UnfinishedRunsAreStored(env, limit, history[..n], history[n].runId);
    AfterOne(env, limit, history, n);
    var key := CompletionKey(MemoryAfter(env, limit, history[..n]), history[n]);
    assert key.id == history[n].runId && key.end == history[n].endedAt.utc;
  }

  lemma TwoStarts(env: Environment, history: seq<Operation>, start: StartRunRequest)
    requires Trusted(env) && ValidStart(start) && history == EarlierCompletion(env, start)
    ensures LedgerAfter(env, 1, history[..2]) == Ledger({env.newGuid(0), env.newGuid(1)}, map[])
    ensures FallsBehindNoneAt(env, 1, history, 0) && FallsBehindNoneAt(env, 1, history, 1)
  {
    assert history[..0] == [] && MemoryAfter(env, 1, []).minted == 0 && LedgerAfter(env, 1, []) == Ledger({}, map[]);
    StartNotes(env, 1, history, 0);
    StartNotes(env, 1, history, 1);
    StartFallsBehindNone(env, 1, history, 0);
    StartFallsBehindNone(env, 1, history, 1);
  }

  lemma StartFallsBehindNone(env: Environment, limit: nat, history: seq<Operation>, n: nat)
    requires n < |history| && history[n].StartRun?
    ensures FallsBehindNoneAt(env, limit, history, n)
  {
  }

  lemma OneCompletion(env: Environment, history: seq<Operation>, n: nat) returns (key: Key)
    requires Trusted(env) && AllTimely(history) && n < |history| && history[n].CompleteRun?
    requires history[n].runId in LedgerAfter(env, 1, history[..n]).started
    requires history[n].runId !in LedgerAfter(env, 1, history[..n]).ever
    ensures FallsBehindNoneAt(env, 1, history, n)
    ensures key.id == history[n].runId && key.end == history[n].endedAt.utc
    ensures LedgerAfter(env, 1, history[..n + 1]) ==
            Ledger(LedgerAfter(env, 1, history[..n]).started, LedgerAfter(env, 1, history[..n]).ever[key.id := key])
  {
    FirstCompletionNotes(env, 1, history, n);
    key :| key.id == history[n].runId && key.end == history[n].endedAt.utc &&
      LedgerAfter(env, 1, history[..n + 1]) ==
        LedgerAfter(env, 1, history[..n]).(ever := LedgerAfter(env, 1, history[..n]).ever[key.id := key]);
  }

  // After the fourth operation, with B's completion about to move earlier.
  lemma FifthDisagrees(env: Environment, history: seq<Operation>, a: Key, b: Key)
    requires Trusted(env) && AllTimely(history) && |history| == 5 && AgreesAfter(env, 1, history[..4])
    requires a.id != b.id && Ahead(b, a)
    requires LedgerAfter(env, 1, history[..4]).ever == map[a.id := a, b.id := b]
    requires history[4].CompleteRun? && history[4].runId == b.id && history[4].endedAt.utc < a.end
    ensures !AgreesAfter(env, 1, history)
  {
    FifthFallsBehind(env, history, a, b);
    OneMoreAgrees(env, 1, history, 4);
    assert history[..5] == history;
  }

  lemma FifthFallsBehind(env: Environment, history: seq<Operation>, a: Key, b: Key)
    requires Trusted(env) && AllTimely(history) && |history| == 5 && AgreesAfter(env, 1, history[..4])
    requires a.id != b.id && Ahead(b, a)
    requires LedgerAfter(env, 1, history[..4]).ever == map[a.id := a, b.id := b]
    requires history[4].CompleteRun? && history[4].runId == b.id && history[4].endedAt.utc < a.end
    ensures !FallsBehindNoneAt(env, 1, history, 4)
  {
    var s, ledger := MemoryAfter(env, 1, history[..4]), LedgerAfter(env, 1, history[..4]);
    OnlyTwoKeys(ledger, a, b);
    TwoKeys(a, b);
    HistoryTracks(env, 1, history[..4]);
    HistoryKeepsInvariant(env, 1, history[..4]);
    InvariantIsKeyed(env, 1, s);
    EarlierFallsBehind(env, s, history[4], ledger, a);
  }

  lemma TwoCompletions(env: Environment, history: seq<Operation>) returns (a: Key, b: Key)
    requires Trusted(env) && AllTimely(history) && |history| == 5
    requires history[2].CompleteRun? && history[3].CompleteRun? && history[2].runId != history[3].runId
    requires LedgerAfter(env, 1, history[..2]) == Ledger({history[2].runId, history[3].runId}, map[])
    requires FallsBehindNoneAt(env, 1, history, 0) && FallsBehindNoneAt(env, 1, history, 1)
    ensures a.id == history[2].runId && a.end == history[2].endedAt.utc
    ensures b.id == history[3].runId && b.end == history[3].endedAt.utc
    ensures LedgerAfter(env, 1, history[..4]).ever == map[a.id := a, b.id := b]
    ensures AgreesAfter(env, 1, history[..4])
  {
    a := OneCompletion(env, history, 2);
    b := OneCompletion(env, history, 3);
    FourAgree(env, history);
  }

  lemma FourAgree(env: Environment, history: seq<Operation>)
    requires Trusted(env) && AllTimely(history) && |history| >= 4
    requires FallsBehindNoneAt(env, 1, history, 0) && FallsBehindNoneAt(env, 1, history, 1)
    requires FallsBehindNoneAt(env, 1, history, 2) && FallsBehindNoneAt(env, 1, history, 3)
    ensures AgreesAfter(env, 1, history[..4])
  {
    forall k | 0 <= k < 4 ensures FallsBehindNoneAt(env, 1, history, k) {
      if k == 0 {} else if k == 1 {} else if k == 2 {} else { assert k == 3; }
    }
    PrefixesAgree(env, 1, history, 4);
  }

  // Two runs, room for one: A ends at 10, B at 20, so A is pruned. When B is then
  // completed again at 5, A is the later of the two but B is the one still stored.
  lemma EarlierCompletionDisagrees(env: Environment, start: StartRunRequest)
    requires Trusted(env) && ValidStart(start)
    ensures !AgreesAfter(env, 1, EarlierCompletion(env, start))
  {
    var history := EarlierCompletion(env, start);
    TwoStarts(env, history, start);
    assert env.serial(env.newGuid(0)) == 0 && env.serial(env.newGuid(1)) == 1;
    var a, b := TwoCompletions(env, history);
    FifthDisagrees(env, history, a, b);
  }

  lemma OnlyTwoKeys(ledger: Ledger, a: Key, b: Key)
    requires a.id != b.id && ledger.ever == map[a.id := a, b.id := b]
    ensures ledger.Keys() == {a, b}
  {
    assert ledger.ever[a.id] == a && ledger.ever[b.id] == b;
  }

  lemma EarlierFallsBehind(env: Environment, s: MemoryService, op: Operation, ledger: Ledger, r: Key)
    requires Keyed(s.runs) && Tracked(env, s, ledger) && Agrees(1, s, ledger)
    requires op.CompleteRun? && op.runId in ledger.ever && ledger.ever[op.runId] in Latest(ledger.Keys(), 1)
    requires r in ledger.Keys() && r !in Latest(ledger.Keys(), 1) && r.end > op.endedAt.utc
    ensures !FallsBehindNone(1, s, op, ledger)
  {
    var key := ledger.ever[op.runId];
    var id :| id in s.runs && IsCompleted(s.runs, id) && KeyOf(s.runs, id) == key;
    assert id == op.runId;
    assert Ahead(r, CompletionKey(s, op));
  }
}
