/**
 The two run stores: a dictionary of runs, and a table of rows that is decoded on
 every read. Both keep every unfinished run and the latest completed ones.
 */
module Stores {
  import opened Results
  import opened Trace
  import opened Decoding
  import opened Retention

  // What the callback of an update asks for. Same is the run it was given, by reference.
  datatype Change = Refuse(error: RecorderError) | Same | Replace(run: TraceRun)

  type Runs = map<Guid, TraceRun>
  type Rows = map<Guid, Row>

  // ----- What the stores keep -----

  ghost predicate Keyed(runs: Runs) {
    forall id | id in runs :: runs[id].id == id
  }

  predicate IsCompleted(runs: Runs, id: Guid) {
    id in runs && runs[id].endedAt.Some?
  }

  function KeyOf(runs: Runs, id: Guid): Key
    requires IsCompleted(runs, id)
  {
    Key(runs[id].endedAt.value.utc, runs[id].startedAt.utc, runs[id].id)
  }

  function CompletedKeys(runs: Runs): set<Key> {
    set id | id in runs && IsCompleted(runs, id) :: KeyOf(runs, id)
  }

  // Every unfinished run, and the completed ones among the latest.
  function Retained(runs: Runs, limit: nat): (r: Runs)
    ensures forall id ::
            id in r <==> id in runs && (!IsCompleted(runs, id) || KeyOf(runs, id) in Latest(CompletedKeys(runs), limit))
    ensures forall id | id in r :: r[id] == runs[id]
  {
    map id | id in runs && (!IsCompleted(runs, id) || KeyOf(runs, id) in Latest(CompletedKeys(runs), limit)) :: runs[id]
  }

  lemma KeysOfRetained(runs: Runs, limit: nat)
    requires Keyed(runs)
    ensures CompletedKeys(Retained(runs, limit)) == Latest(CompletedKeys(runs), limit)
    ensures Keyed(Retained(runs, limit))
  {
    var kept := Retained(runs, limit);
    var latest := Latest(CompletedKeys(runs), limit);
    forall k | k in CompletedKeys(kept) ensures k in latest {
      var id :| id in kept && IsCompleted(kept, id) && KeyOf(kept, id) == k;
      assert id in runs && IsCompleted(runs, id) && KeyOf(runs, id) == k;
    }
    forall k | k in latest ensures k in CompletedKeys(kept) {
      var id :| id in runs && IsCompleted(runs, id) && KeyOf(runs, id) == k;
      assert id in kept && IsCompleted(kept, id) && KeyOf(kept, id) == k;
    }
  }

  // A store that holds no more completed runs than it may has nothing to prune.
  ghost predicate WithinLimit(runs: Runs, limit: nat) {
    |CompletedKeys(runs)| <= limit
  }

  lemma NothingToPrune(runs: Runs, limit: nat)
    requires WithinLimit(runs, limit)
    ensures Retained(runs, limit) == runs
  {
    FewAreAllLatest(CompletedKeys(runs), limit);
    forall id | id in runs && IsCompleted(runs, id) ensures KeyOf(runs, id) in CompletedKeys(runs) {
    }
  }

  lemma PrunedIsWithinLimit(runs: Runs, limit: nat)
    requires Keyed(runs)
    ensures WithinLimit(Retained(runs, limit), limit) && Keyed(Retained(runs, limit))
  {
    KeysOfRetained(runs, limit);
    LatestCount(CompletedKeys(runs), limit);
  }

  // A run that is rewritten without moving its start or end keeps its rank.
  lemma SameEndsSameKeys(before: Runs, id: Guid, run: TraceRun)
    requires id in before && run.id == before[id].id && run.startedAt == before[id].startedAt
             && run.endedAt == before[id].endedAt
    ensures CompletedKeys(before[id := run]) == CompletedKeys(before)
  {
    var after := before[id := run];
    forall j | j in before ensures IsCompleted(after, j) <==> IsCompleted(before, j)
                           ensures IsCompleted(before, j) ==> KeyOf(after, j) == KeyOf(before, j) {
    }
    assert CompletedKeys(after) <= CompletedKeys(before);
    assert CompletedKeys(before) <= CompletedKeys(after);
  }

  lemma RewritingStores(runs: Runs, limit: nat, id: Guid, run: TraceRun)
    requires WithinLimit(runs, limit) && id in runs && run.id == runs[id].id
    requires run.startedAt == runs[id].startedAt && run.endedAt == runs[id].endedAt
    ensures Retained(runs[id := run], limit) == runs[id := run]
  {
    SameEndsSameKeys(runs, id, run);
    NothingToPrune(runs[id := run], limit);
  }

  // ----- The in-memory store -----

  function MemoryAdd(runs: Runs, limit: nat, run: TraceRun): Result<Runs, RecorderError> {
    if run.id in runs then Err(ArgumentError) else Ok(Retained(runs[run.id := run], limit))
  }

  // The runs after an update, and what it returns: nothing for an unknown run.
  function MemoryUpdate(runs: Runs, limit: nat, id: Guid, update: TraceRun -> Change): (Runs,
                        Result<Option<TraceRun>, RecorderError>) {
    if id !in runs then (runs, Ok(None))
    else match update(runs[id])
      case Refuse(e) => (runs, Err(e))
      case Same => (runs, Ok(Some(runs[id])))
      case Replace(run) =>
        if run.id != id then (runs, Err(ArgumentError))
        else (if run.endedAt.Some? then Retained(runs[id := run], limit) else runs[id := run], Ok(Some(run)))
  }

  class InMemoryTraceRunStore {
    const maxCompletedRuns: nat
    var runs: Runs

    constructor (maxCompletedRuns: nat)
      requires maxCompletedRuns > 0
      ensures this.maxCompletedRuns == maxCompletedRuns && runs == map[]
    {
      this.maxCompletedRuns := maxCompletedRuns;
      runs := map[];
    }

    method Add(run: TraceRun) returns (r: Result<(), RecorderError>)
      requires Keyed(runs)
      modifies this
      ensures r.Ok? <==> MemoryAdd(old(runs), maxCompletedRuns, run).Ok?
      ensures r.Ok? ==> Keyed(runs) && runs == MemoryAdd(old(runs), maxCompletedRuns, run).value
      ensures r.Err? ==> runs == old(runs) && r.error == MemoryAdd(old(runs), maxCompletedRuns, run).error
    {
      if run.id in runs {
        return Err(ArgumentError);
      }
      runs := runs[run.id := run];
      Prune();
      r := Ok(());
    }

    method Get(id: Guid) returns (r: Option<TraceRun>)
      ensures r == if id in runs then Some(runs[id]) else None
    {
      r := if id in runs then Some(runs[id]) else None;
    }

    method Update(id: Guid, update: TraceRun -> Change) returns (r: Result<Option<TraceRun>, RecorderError>)
      requires Keyed(runs)
      modifies this
      ensures Keyed(runs) && (runs, r) == MemoryUpdate(old(runs), maxCompletedRuns, id, update)
    {
      if id !in runs {
        return Ok(None);
      }
      var current := runs[id];
      match update(current) {
        case Refuse(e) =>
          return Err(e);
        case Same =>
          return Ok(Some(current));
        case Replace(updated) =>
          if updated.id != id {
            return Err(ArgumentError);
          }
          runs := runs[id := updated];
          if updated.endedAt.Some? {
            Prune();
          }
          return Ok(Some(updated));
      }
    }

    method Prune()
      requires Keyed(runs)
      modifies this
      ensures Keyed(runs) && runs == Retained(old(runs), maxCompletedRuns)
    {
      var ranked := Ranked(CompletedKeys(runs));
      var expired := ranked[if maxCompletedRuns <= |ranked| then maxCompletedRuns else |ranked|..];
      var n := 0;
      while n < |expired|
        invariant 0 <= n <= |expired|
        invariant runs == old(runs) - (set k | 0 <= k < n :: expired[k].id)
      {
        runs := runs - {expired[n].id};
        n := n + 1;
      }
      ExpiredAreNotRetained(old(runs), maxCompletedRuns, expired);
    }
  }

  lemma ExpiredAreNotRetained(runs: Runs, limit: nat, expired: seq<Key>)
    requires Keyed(runs)
    requires var ranked := Ranked(CompletedKeys(runs));
             expired == ranked[if limit <= |ranked| then limit else |ranked|..]
    ensures runs - (set k | 0 <= k < |expired| :: expired[k].id) == Retained(runs, limit)
    ensures Keyed(Retained(runs, limit))
  {
    var ids := set k | 0 <= k < |expired| :: expired[k].id;
    forall id | id in runs ensures id in ids <==> id !in Retained(runs, limit) {
      if id in ids {
        var k :| 0 <= k < |expired| && expired[k].id == id;
        assert expired[k] in expired;
        SkipIsTheRest(CompletedKeys(runs), limit, expired[k]);
        var i :| IsCompleted(runs, i) && KeyOf(runs, i) == expired[k];
      }
      if id !in Retained(runs, limit) {
        var key := KeyOf(runs, id);
        SkipIsTheRest(CompletedKeys(runs), limit, key);
        var k :| 0 <= k < |expired| && expired[k] == key;
      }
    }
  }

  // ----- The SQLite store -----

  predicate RowCompleted(rows: Rows, id: Guid) {
    id in rows && rows[id].completedTicks.Some?
  }

  function RowKey(rows: Rows, id: Guid): Key
    requires RowCompleted(rows, id)
  {
    Key(rows[id].completedTicks.value, rows[id].startedTicks, rows[id].id)
  }

  function RowKeys(rows: Rows): set<Key> {
    set id | id in rows && RowCompleted(rows, id) :: RowKey(rows, id)
  }

  // ORDER BY completed DESC, started DESC, id LIMIT -1 OFFSET $limit: the rows that
  // at least $limit rows precede.
  function BeyondOffset(rows: Rows, limit: nat): set<Guid> {
    set id | id in rows && RowCompleted(rows, id) && |AheadOf(RowKeys(rows), RowKey(rows, id))| >= limit :: id
  }

  function RowsPruned(rows: Rows, limit: nat): Rows {
    rows - BeyondOffset(rows, limit)
  }

  // Opening a database refuses one that holds an unreadable row, and then prunes.
  ghost function Opened(rows: Rows, limit: nat): Result<Rows, RecorderError> {
    if forall id | id in rows :: Decoded(rows[id]).Ok? then Ok(RowsPruned(rows, limit)) else Err(StorageError)
  }

  function RowsAdd(rows: Rows, limit: nat, run: TraceRun): Result<Rows, RecorderError> {
    if run.id in rows then Err(StorageError)
    else
      var written := rows[run.id := Encode(run)];
      Ok(if run.endedAt.Some? then RowsPruned(written, limit) else written)
  }

  ghost function RowsUpdate(rows: Rows, limit: nat, id: Guid, update: TraceRun -> Change): (Rows,
                            Result<Option<TraceRun>, RecorderError>) {
    if id !in rows then (rows, Ok(None))
    else match Decoded(rows[id])
      case Err(e) => (rows, Err(e))
      case Ok(current) =>
        match update(current)
        case Refuse(e) => (rows, Err(e))
        case Same => (rows, Ok(Some(current)))
        case Replace(run) =>
          if run.id != id then (rows, Err(ArgumentError))
          else
            var written := rows[id := Encode(run)];
            (if run.endedAt.Some? then RowsPruned(written, limit) else written, Ok(Some(run)))
  }

  class SqliteTraceRunStore {
    const maxCompletedRuns: nat
    var rows: Rows

    // A new database; Initialize opens one that exists.
    constructor (maxCompletedRuns: nat)
      requires maxCompletedRuns > 0
      ensures this.maxCompletedRuns == maxCompletedRuns && rows == map[]
    {
      this.maxCompletedRuns := maxCompletedRuns;
      rows := map[];
    }

    method Initialize() returns (r: Result<(), RecorderError>)
      modifies this
      ensures r.Ok? <==> Opened(old(rows), maxCompletedRuns).Ok?
      ensures r.Ok? ==> rows == Opened(old(rows), maxCompletedRuns).value
      ensures r.Err? ==> rows == old(rows)
    {
      var unread := rows.Keys;
      while unread != {}
        invariant unread <= rows.Keys && rows == old(rows)
        invariant forall id | id in rows && id !in unread :: Decoded(rows[id]).Ok?
        decreases unread
      {
        var id :| id in unread;
        var run := Decode(rows[id]);
        if run.Err? {
          return Err(StorageError);
        }
        unread := unread - {id};
      }
      Prune();
      r := Ok(());
    }

    method Add(run: TraceRun) returns (r: Result<(), RecorderError>)
      modifies this
      ensures r.Ok? <==> RowsAdd(old(rows), maxCompletedRuns, run).Ok?
      ensures r.Ok? ==> rows == RowsAdd(old(rows), maxCompletedRuns, run).value
      ensures r.Err? ==> rows == old(rows) && r.error == RowsAdd(old(rows), maxCompletedRuns, run).error
    {
      if run.id in rows {
        return Err(StorageError);
      }
      rows := rows[run.id := Encode(run)];
      if run.endedAt.Some? {
        Prune();
      }
      r := Ok(());
    }

    method Get(id: Guid) returns (r: Result<Option<TraceRun>, RecorderError>)
      ensures id !in rows ==> r == Ok(None)
      ensures id in rows ==> r == match Decoded(rows[id]) case Ok(run) => Ok(Some(run)) case Err(e) => Err(e)
    {
      if id !in rows {
        return Ok(None);
      }
      var run := Decode(rows[id]);
      r := match run case Ok(value) => Ok(Some(value)) case Err(e) => Err(e);
    }

    method Update(id: Guid, update: TraceRun -> Change) returns (r: Result<Option<TraceRun>, RecorderError>)
      modifies this
      ensures (rows, r) == RowsUpdate(old(rows), maxCompletedRuns, id, update)
    {
      if id !in rows {
        return Ok(None);
      }
      var current := Decode(rows[id]);
      if current.Err? {
        return Err(current.error);
      }
      match update(current.value) {
        case Refuse(e) =>
          return Err(e);
        case Same =>
          return Ok(Some(current.value));
        case Replace(updated) =>
          if updated.id != id {
            return Err(ArgumentError);
          }
          rows := rows[id := Encode(updated)];
          if updated.endedAt.Some? {
            Prune();
          }
          return Ok(Some(updated));
      }
    }

    // The rows are ordered, the first ones skipped, and the others deleted.
    method Prune()
      modifies this
      ensures rows == RowsPruned(old(rows), maxCompletedRuns)
      ensures RowKeys(rows) == Latest(RowKeys(old(rows)), maxCompletedRuns)
      ensures forall id | id in old(rows) && !RowCompleted(old(rows), id) :: id in rows && rows[id] == old(rows)[id]
    {
      var ordered := Ranked(RowKeys(rows));
      var selected := ordered[if maxCompletedRuns <= |ordered| then maxCompletedRuns else |ordered|..];
      SelectedAreBeyondOffset(rows, maxCompletedRuns, selected);
      PrunedRowKeys(rows, maxCompletedRuns);
      rows := map id | id in rows && !(RowCompleted(rows, id) && RowKey(rows, id) in selected) :: rows[id];
    }
  }

  lemma SelectedAreBeyondOffset(rows: Rows, limit: nat, selected: seq<Key>)
    requires var ordered := Ranked(RowKeys(rows));
             selected == ordered[if limit <= |ordered| then limit else |ordered|..]
    ensures forall id | RowCompleted(rows, id) :: RowKey(rows, id) in selected <==> id in BeyondOffset(rows, limit)
  {
    forall id | RowCompleted(rows, id) ensures RowKey(rows, id) in selected <==> id in BeyondOffset(rows, limit) {
      assert RowKey(rows, id) in RowKeys(rows);
      SkipIsTheRest(RowKeys(rows), limit, RowKey(rows, id));
    }
  }

  // What is left of the completed rows are the latest of them.
  lemma PrunedRowKeys(rows: Rows, limit: nat)
    ensures RowKeys(RowsPruned(rows, limit)) == Latest(RowKeys(rows), limit)
  {
    var left := RowsPruned(rows, limit);
    forall id | RowCompleted(rows, id) ensures id in left <==> RowKey(rows, id) in Latest(RowKeys(rows), limit) {
      assert RowKey(rows, id) in RowKeys(rows);
    }
    forall k | k in RowKeys(left) ensures k in Latest(RowKeys(rows), limit) {
      var id :| id in left && RowCompleted(left, id) && RowKey(left, id) == k;
      assert id in rows && RowCompleted(rows, id) && RowKey(rows, id) == k;
    }
    forall k | k in Latest(RowKeys(rows), limit) ensures k in RowKeys(left) {
      var id :| id in rows && RowCompleted(rows, id) && RowKey(rows, id) == k;
      assert id in left && RowCompleted(left, id) && RowKey(left, id) == k;
    }
  }

  // ----- The table mirrors the dictionary -----

  // The rows that hold exactly these runs.
  function EncodeAll(runs: Runs): (rows: Rows)
    ensures rows.Keys == runs.Keys
    ensures forall id | id in rows :: rows[id] == Encode(runs[id])
  {
    map id | id in runs :: Encode(runs[id])
  }

  lemma RowKeysMirror(runs: Runs)
    ensures RowKeys(EncodeAll(runs)) == CompletedKeys(runs)
    ensures forall id | IsCompleted(runs, id) :: RowKey(EncodeAll(runs), id) == KeyOf(runs, id)
  {
    var rows := EncodeAll(runs);
    forall id ensures RowCompleted(rows, id) <==> IsCompleted(runs, id)
              ensures IsCompleted(runs, id) ==> RowKey(rows, id) == KeyOf(runs, id) {
    }
    assert RowKeys(rows) <= CompletedKeys(runs);
    assert CompletedKeys(runs) <= RowKeys(rows);
  }

  // Sorting objects and deleting by row offset leave the same runs.
  lemma PruningMirrors(runs: Runs, limit: nat)
    ensures RowsPruned(EncodeAll(runs), limit) == EncodeAll(Retained(runs, limit))
  {
    var rows := EncodeAll(runs);
    RowKeysMirror(runs);
    forall id | id in runs ensures id in BeyondOffset(rows, limit) <==> id !in Retained(runs, limit) {
      assert RowCompleted(rows, id) <==> IsCompleted(runs, id);
      if IsCompleted(runs, id) {
        assert KeyOf(runs, id) in CompletedKeys(runs);
      }
    }
  }

  lemma WritingMirrors(runs: Runs, run: TraceRun)
    ensures EncodeAll(runs[run.id := run]) == EncodeAll(runs)[run.id := Encode(run)]
  {
  }
}
