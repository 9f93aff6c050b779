/**
 The cross-process operation lock (LocalRecorder._locked) as steps of any number of
 operations over one directory: a rename takes the lock, a dead owner's lock is moved
 to a tombstone named after its token, and a release unlinks the owner record and then
 removes the directory. Any step of any operation, or a crash, may come next.
 */
module OperationLock {

  type Token = nat

  // owner.json
  datatype Record = Record(token: Token, pid: nat, host: string, createdAt: int)

  // A directory at a path: missing, there without an owner record, or with one.
  datatype Directory = Missing | Empty | Holds(owner: Record)

  datatype Stage =
    | Trying(attempt: nat)                           // about to rename its candidate to the lock
    | Reading(attempt: nat)                          // the rename failed: about to read owner.json
    | Judging(attempt: nat, previous: Record)        // has read a record: about to test its owner
    | Recovering(attempt: nat, previous: Record)     // has found the owner dead: about to move the lock away
    | Acting                                         // acquired: the action runs
    | Removing                                       // owner.json is unlinked, the directory is still there
    | Finished
    | Crashed

  datatype Operation = Operation(record: Record, stage: Stage, acquired: bool, released: bool) {
    // The operation has code left to run, so its process is alive.
    predicate Active() {
      !stage.Finished? && !stage.Crashed?
    }

    function At(stage: Stage): Operation {
      this.(stage := stage)
    }
  }

  datatype State = State(operations: map<Token, Operation>, lock: Directory, tombstones: map<Token, Directory>) {
    function Moved(t: Token, stage: Stage): State
      requires t in operations
    {
      this.(operations := operations[t := operations[t].At(stage)])
    }
  }

  const INITIAL := State(map[], Missing, map[])

  const ATTEMPTS := 2
  const STALE_AFTER := 30_000

  datatype Step =
    | Begin(record: Record)
    | Rename(token: Token, succeeds: bool)
    | Read(token: Token)
    | Judge(token: Token, now: int, alive: bool)
    | Recover(token: Token, succeeds: bool)
    | Unlink(token: Token)
    | RemoveDirectory(token: Token)
    | Abandon(token: Token)                          // an error or a cancellation ends it; its release may fail
    | Crash(token: Token)

  // A rename replaces no directory that has an entry; it may or may not replace an empty one.
  predicate MayBecome(target: Directory) {
    !target.Holds?
  }

  function TombstoneOf(s: State, token: Token): Directory {
    if token in s.tombstones then s.tombstones[token] else Missing
  }

  predicate LooksStale(mine: Record, previous: Record, now: int, alive: bool) {
    previous.host == mine.host && now - previous.createdAt >= STALE_AFTER && !alive
  }

  ghost predicate ProcessActive(s: State, host: string, pid: nat) {
    exists t | t in s.operations ::
        s.operations[t].record.host == host && s.operations[t].record.pid == pid && s.operations[t].Active()
  }

  ghost predicate Enabled(s: State, step: Step) {
    match step
    case Begin(record) => record.token !in s.operations
    case Rename(t, succeeds) => t in s.operations && s.operations[t].stage.Trying? && (succeeds ==> MayBecome(s.lock))
    case Read(t) => t in s.operations && s.operations[t].stage.Reading?
    // A live process of the tester's own host is never reported dead; of the processes of
    // other hosts the test knows nothing.
    case Judge(t, _, alive) =>
      && t in s.operations && s.operations[t].stage.Judging?
      && var previous := s.operations[t].stage.previous;
      (previous.host == s.operations[t].record.host && ProcessActive(s, previous.host, previous.pid) ==> alive)
    case Recover(t, succeeds) =>
      && t in s.operations && s.operations[t].stage.Recovering?
      && (succeeds ==> !s.lock.Missing? && MayBecome(TombstoneOf(s, s.operations[t].stage.previous.token)))
    case Unlink(t) => t in s.operations && s.operations[t].stage.Acting?
    case RemoveDirectory(t) => t in s.operations && s.operations[t].stage.Removing?
    case Abandon(t) => t in s.operations && s.operations[t].Active()
    case Crash(t) => t in s.operations && s.operations[t].Active()
  }

  function Renamed(s: State, t: Token, succeeds: bool): State
    requires t in s.operations && s.operations[t].stage.Trying?
  {
    var op := s.operations[t];
    if succeeds then State(s.operations[t := op.(stage := Acting, acquired := true)], Holds(op.record), s.tombstones)
    else s.Moved(t, Reading(op.stage.attempt))
  }

  function HasRead(s: State, t: Token): State
    requires t in s.operations && s.operations[t].stage.Reading?
  {
    s.Moved(t, if s.lock.Holds? then Judging(s.operations[t].stage.attempt, s.lock.owner) else Finished)
  }

  function Judged(s: State, t: Token, now: int, alive: bool): State
    requires t in s.operations && s.operations[t].stage.Judging?
  {
    var op := s.operations[t];
    s.Moved(t, if LooksStale(op.record, op.stage.previous, now, alive)
        then Recovering(op.stage.attempt, op.stage.previous)
               else Finished)
  }

  function Recovered(s: State, t: Token, succeeds: bool): State
    requires t in s.operations && s.operations[t].stage.Recovering?
  {
    var op := s.operations[t];
    if !succeeds then s.Moved(t, Finished)
    else
      var retry := if op.stage.attempt + 1 < ATTEMPTS then Trying(op.stage.attempt + 1) else Finished;
      State(s.operations[t := op.At(retry)], Missing, s.tombstones[op.stage.previous.token := s.lock])
  }

  // Whatever record is at the lock's path goes.
  function Unlinked(s: State, t: Token): State
    requires t in s.operations
  {
    State(s.operations[t := s.operations[t].(stage := Removing, released := true)],
          if s.lock.Holds? then Empty else s.lock, s.tombstones)
  }

  function DirectoryRemoved(s: State, t: Token): State
    requires t in s.operations
  {
    State(s.operations[t := s.operations[t].At(Finished)], if s.lock.Empty? then Missing else s.lock, s.tombstones)
  }

  ghost function Next(s: State, step: Step): State
    requires Enabled(s, step)
  {
    match step
    case Begin(record) => s.(operations := s.operations[record.token := Operation(record, Trying(0), false, false)])
    case Rename(t, succeeds) => Renamed(s, t, succeeds)
    case Read(t) => HasRead(s, t)
    case Judge(t, now, alive) => Judged(s, t, now, alive)
    case Recover(t, succeeds) => Recovered(s, t, succeeds)
    case Unlink(t) => Unlinked(s, t)
    case RemoveDirectory(t) => DirectoryRemoved(s, t)
    case Abandon(t) => s.Moved(t, Finished)
    case Crash(t) => s.Moved(t, Crashed)
  }

  // ----- Runs -----

  ghost predicate Steps(s: State, step: Step, after: State) {
    Enabled(s, step) && after == Next(s, step)
  }

  // A run from states[0], step by step.
  ghost predicate IsRun(states: seq<State>, steps: seq<Step>) {
    |states| == |steps| + 1 && forall i | 0 <= i < |steps| :: Steps(states[i], steps[i], states[i + 1])
  }

  // The step takes for dead an owner that has released the lock since its record was read.
  ghost predicate MisjudgesReleased(s: State, step: Step) {
    && step.Judge? && Enabled(s, step)
    && var op := s.operations[step.token];
    && LooksStale(op.record, op.stage.previous, step.now, step.alive)
    && op.stage.previous.token in s.operations && s.operations[op.stage.previous.token].released
  }

  // ----- The invariant -----

  // The owner of a record that was in the lock: it acquired the lock under this record.
  ghost predicate Known(s: State, r: Record) {
    r.token in s.operations && s.operations[r.token].record == r && s.operations[r.token].acquired
  }

  ghost predicate OperationOk(s: State, t: Token)
    requires t in s.operations
  {
    var op := s.operations[t];
    && op.record.token == t
    && (op.stage.Acting? ==> op.acquired && !op.released)
    && (op.stage.Removing? ==> op.released)
    && (op.acquired && !op.released ==> s.lock == Holds(op.record) || TombstoneOf(s, t) == Holds(op.record))
    && (op.released ==> op.acquired && s.lock != Holds(op.record) && t !in s.tombstones)
    && (op.stage.Acting? ==> t !in s.tombstones)
    && (!op.acquired ==> op.stage.Finished? || op.stage.Crashed? || op.stage.Trying? || op.stage.Reading?
                         || op.stage.Judging? || op.stage.Recovering?)
    && (op.acquired ==> op.stage.Finished? || op.stage.Crashed? || op.stage.Acting? || op.stage.Removing?)
    && (op.stage.Judging? ==> Known(s, op.stage.previous))
    && (op.stage.Recovering? ==> Known(s, op.stage.previous) && Buried(s, op.stage.previous))
  }

  // Its owner is gone without having released: its lock is there to be moved, or has been.
  ghost predicate Buried(s: State, r: Record)
    requires r.token in s.operations
  {
    !s.operations[r.token].Active() && !s.operations[r.token].released
  }

  ghost predicate DirectoriesOk(s: State) {
    && (s.lock.Holds? ==> Known(s, s.lock.owner) && s.lock.owner.token !in s.tombstones)
    && (forall k | k in s.tombstones :: s.tombstones[k].Holds? && s.tombstones[k].owner.token == k
                                       && Known(s, s.tombstones[k].owner) && Buried(s, s.tombstones[k].owner))
  }

  ghost predicate Ok(s: State) {
    DirectoriesOk(s) && forall t | t in s.operations :: OperationOk(s, t)
  }

  // At most one operation acts, and the lock holds its record.
  ghost predicate Exclusive(s: State) {
    && (forall t | t in s.operations && s.operations[t].stage.Acting? :: s.lock == Holds(s.operations[t].record))
    && (forall t, u | t in s.operations && u in s.operations && s.operations[t].stage.Acting?
       && s.operations[u].stage.Acting? :: t == u)
  }

  lemma OkIsExclusive(s: State)
    requires Ok(s)
    ensures Exclusive(s)
  {
    forall t | t in s.operations && s.operations[t].stage.Acting?
      ensures s.lock == Holds(s.operations[t].record) && s.lock.owner.token == t
    {
      assert OperationOk(s, t);
    }
  }

  // ----- Every step keeps the invariant -----

  lemma MovedKeepsOk(s: State, t: Token, stage: Stage)
    requires Ok(s) && t in s.operations && s.operations[t].Active()
    requires OperationOk(s.Moved(t, stage), t)
    requires stage.Finished? || stage.Crashed? || !s.operations[t].acquired
    ensures Ok(s.Moved(t, stage))
  {
    var after := s.Moved(t, stage);
    forall u | u in after.operations ensures OperationOk(after, u) {
      assert OperationOk(s, u);
    }
  }

  lemma BeginKeepsOk(s: State, record: Record)
    requires Ok(s) && record.token !in s.operations
    ensures Ok(s.(operations := s.operations[record.token := Operation(record, Trying(0), false, false)]))
  {
    var after := s.(operations := s.operations[record.token := Operation(record, Trying(0), false, false)]);
    forall u | u in after.operations ensures OperationOk(after, u) {
      if u in s.operations { assert OperationOk(s, u); }
    }
  }

  lemma AcquiringKeepsOk(s: State, t: Token)
    requires Ok(s) && Enabled(s, Rename(t, true))
    ensures Ok(Renamed(s, t, true))
  {
    var after := Renamed(s, t, true);
    assert OperationOk(s, t);
    forall u | u in after.operations ensures OperationOk(after, u) {
      assert OperationOk(s, u);
    }
  }

  lemma JudgingKeepsOk(s: State, t: Token, now: int, alive: bool)
    requires Ok(s) && Enabled(s, Judge(t, now, alive)) && !MisjudgesReleased(s, Judge(t, now, alive))
    ensures Ok(Judged(s, t, now, alive))
  {
    assert OperationOk(s, t);
    var op := s.operations[t];
    var previous := op.stage.previous;
    if LooksStale(op.record, previous, now, alive) {
      assert !s.operations[previous.token].Active();
      MovedKeepsOk(s, t, Recovering(op.stage.attempt, previous));
    } else {
      MovedKeepsOk(s, t, Finished);
    }
  }

  lemma RecoveringKeepsOk(s: State, t: Token)
    requires Ok(s) && Enabled(s, Recover(t, true))
    ensures Ok(Recovered(s, t, true))
  {
    var after := Recovered(s, t, true);
    assert OperationOk(s, t);
    var previous := s.operations[t].stage.previous;
    assert OperationOk(s, previous.token);
    // The owner has not released and is not in a tombstone, so the lock is its own.
    assert s.lock == Holds(previous);
    forall u | u in after.operations ensures OperationOk(after, u) {
      assert OperationOk(s, u);
    }
  }

  lemma UnlinkingKeepsOk(s: State, t: Token)
    requires Ok(s) && Enabled(s, Unlink(t))
    ensures s.lock == Holds(s.operations[t].record)
    ensures Ok(Unlinked(s, t))
  {
    var after := Unlinked(s, t);
    assert OperationOk(s, t);
    forall u | u in after.operations ensures OperationOk(after, u) {
      assert OperationOk(s, u);
    }
  }

  lemma RemovingKeepsOk(s: State, t: Token)
    requires Ok(s) && Enabled(s, RemoveDirectory(t))
    ensures Ok(DirectoryRemoved(s, t))
  {
    var after := DirectoryRemoved(s, t);
    assert OperationOk(s, t);
    forall u | u in after.operations ensures OperationOk(after, u) {
      assert OperationOk(s, u);
    }
  }

  lemma StepKeepsOk(s: State, step: Step)
    requires Ok(s) && Enabled(s, step) && !MisjudgesReleased(s, step)
    ensures Ok(Next(s, step))
  {
    assert !step.Begin? ==> OperationOk(s, step.token);
    match step
    case Begin(record) => BeginKeepsOk(s, record);
    case Rename(t, succeeds) =>
      if succeeds { AcquiringKeepsOk(s, t); } else { MovedKeepsOk(s, t, Reading(s.operations[t].stage.attempt)); }
    case Read(t) =>
      MovedKeepsOk(s, t, if s.lock.Holds? then Judging(s.operations[t].stage.attempt, s.lock.owner) else Finished);
    case Judge(t, now, alive) => JudgingKeepsOk(s, t, now, alive);
    case Recover(t, succeeds) =>
      if succeeds { RecoveringKeepsOk(s, t); } else { MovedKeepsOk(s, t, Finished); }
    case Unlink(t) => UnlinkingKeepsOk(s, t);
    case RemoveDirectory(t) => RemovingKeepsOk(s, t);
    case Abandon(t) => MovedKeepsOk(s, t, Finished);
    case Crash(t) => MovedKeepsOk(s, t, Crashed);
  }

  // ----- Safety over whole runs -----

  ghost predicate Careful(states: seq<State>, steps: seq<Step>)
    requires |states| == |steps| + 1
  {
    forall i | 0 <= i < |steps| :: !MisjudgesReleased(states[i], steps[i])
  }

  lemma {:induction false} RunKeepsOk(states: seq<State>, steps: seq<Step>, n: nat)
    requires IsRun(states, steps) && Ok(states[0]) && Careful(states, steps) && n <= |steps|
    ensures Ok(states[n])
  {
    if n > 0 {
      RunKeepsOk(states, steps, n - 1);
      assert Steps(states[n - 1], steps[n - 1], states[n]);
      StepKeepsOk(states[n - 1], steps[n - 1]);
    }
  }

  // At every point of every run at most one operation acts, and the lock is its own.
  lemma MutualExclusion(states: seq<State>, steps: seq<Step>, n: nat)
    requires IsRun(states, steps) && states[0] == INITIAL && Careful(states, steps) && n <= |steps|
    ensures Exclusive(states[n])
  {
    RunKeepsOk(states, steps, n);
    OkIsExclusive(states[n]);
  }

  // While an operation acts, only its own release takes its record away; a release finds
  // its own record in the lock; and a tombstone is never written again.
  lemma OnlyItsOwnRelease(s: State, step: Step, t: Token)
    requires Ok(s) && Enabled(s, step) && !MisjudgesReleased(s, step)
    requires t in s.operations && s.operations[t].stage.Acting?
    ensures Next(s, step).lock != s.lock ==> step == Unlink(t)
    ensures step.Unlink? ==> step.token == t && s.lock == Holds(s.operations[t].record)
    ensures forall k | k in s.tombstones ::
            k in Next(s, step).tombstones && Next(s, step).tombstones[k] == s.tombstones[k]
  {
    assert OperationOk(s, t);
    assert !step.Begin? ==> OperationOk(s, step.token);
    if step.Recover? && step.succeeds {
      RecoveringTakesTheDead(s, step.token);
    }
  }

  // What a recovery moves is the dead owner's lock, under that owner's name.
  lemma RecoveringTakesTheDead(s: State, t: Token)
    requires Ok(s) && Enabled(s, Recover(t, true))
    ensures s.lock == Holds(s.operations[t].stage.previous)
    ensures Known(s, s.lock.owner) && !s.operations[s.lock.owner.token].Active()
    ensures s.operations[t].stage.previous.token !in s.tombstones
  {
    assert OperationOk(s, t);
    assert OperationOk(s, s.operations[t].stage.previous.token);
  }

  lemma ReleasesRemoveTheirOwn(states: seq<State>, steps: seq<Step>, n: nat)
    requires IsRun(states, steps) && states[0] == INITIAL && Careful(states, steps) && n < |steps|
    ensures steps[n].Unlink? ==>
              steps[n].token in states[n].operations
                  && states[n].lock == Holds(states[n].operations[steps[n].token].record)
    ensures forall t | t in states[n].operations && states[n].operations[t].stage.Acting? ::
              states[n + 1].lock != states[n].lock ==> steps[n] == Unlink(t)
    ensures forall k | k in states[n].tombstones ::
              k in states[n + 1].tombstones && states[n + 1].tombstones[k] == states[n].tombstones[k]
  {
    RunKeepsOk(states, steps, n);
    assert Steps(states[n], steps[n], states[n + 1]);
    var s, step := states[n], steps[n];
    if step.Unlink? { UnlinkingKeepsOk(s, step.token); }
    if step.Recover? && step.succeeds { RecoveringTakesTheDead(s, step.token); }
    forall t | t in s.operations && s.operations[t].stage.Acting? && states[n + 1].lock != s.lock
        ensures step == Unlink(t) {
      OnlyItsOwnRelease(s, step, t);
    }
  }

  // ----- Whose lock is moved, and by whom -----

  // At step m the operation tested the owner of this record: on its own host, at least thirty
  // seconds old, and not alive.
  ghost predicate JudgedDead(states: seq<State>, steps: seq<Step>, t: Token, r: Record, m: nat)
    requires |states| == |steps| + 1
  {
    && m < |steps| && steps[m].Judge? && steps[m].token == t && !steps[m].alive && steps[m].now - r.createdAt >= 30_000
    && t in states[m].operations && states[m].operations[t].record.host == r.host
  }

  // A step of another operation leaves an operation as it is; its record never changes.
  lemma StepOfAnother(s: State, step: Step, t: Token)
    requires Enabled(s, step) && t in s.operations
    ensures t in Next(s, step).operations && Next(s, step).operations[t].record == s.operations[t].record
    ensures step.Begin? || step.token != t ==> Next(s, step).operations[t] == s.operations[t]
  {
  }

  lemma StepToRecovering(s: State, step: Step, t: Token)
    requires Enabled(s, step) && t in Next(s, step).operations && Next(s, step).operations[t].stage.Recovering?
    ensures t in s.operations
    ensures var previous := Next(s, step).operations[t].stage.previous;
            if s.operations[t].stage.Recovering? then s.operations[t].stage.previous == previous
            else step.Judge? && step.token == t && !step.alive && step.now - previous.createdAt >= 30_000
                 && s.operations[t].record.host == previous.host
  {
  }

  lemma {:induction false} RecoveringWasJudged(states: seq<State>, steps: seq<Step>, n: nat, t: Token) returns (m: nat)
    requires IsRun(states, steps) && states[0] == INITIAL && n <= |steps|
    requires t in states[n].operations && states[n].operations[t].stage.Recovering?
    ensures m < n && JudgedDead(states, steps, t, states[n].operations[t].stage.previous, m)
  {
    assert Steps(states[n - 1], steps[n - 1], states[n]);
    StepToRecovering(states[n - 1], steps[n - 1], t);
    if states[n - 1].operations[t].stage.Recovering? {
      m := RecoveringWasJudged(states, steps, n - 1, t);
    } else {
      m := n - 1;
    }
  }

  // Whatever changes a lock that holds a record is its owner's release, or a recovery by an
  // operation of the owner's host that found the owner dead and its record old enough.
  lemma HeldLockChanges(states: seq<State>, steps: seq<Step>, n: nat) returns (m: nat)
    requires IsRun(states, steps) && states[0] == INITIAL && Careful(states, steps) && n < |steps|
    requires states[n].lock.Holds? && states[n + 1].lock != states[n].lock
    ensures var owner := states[n].lock.owner;
            if steps[n].Unlink? then steps[n].token == owner.token
            else steps[n].Recover? && m < n && JudgedDead(states, steps, steps[n].token, owner, m)
  {
    var s, step := states[n], steps[n];
    RunKeepsOk(states, steps, n);
    assert Steps(s, step, states[n + 1]);
    m := 0;
    if step.Unlink? {
      UnlinkingKeepsOk(s, step.token);
      assert OperationOk(s, step.token);
    } else {
      RecoveringTakesTheDead(s, step.token);
      m := RecoveringWasJudged(states, steps, n, step.token);
    }
  }

  lemma {:induction false} FinishedStays(states: seq<State>, steps: seq<Step>, m: nat, n: nat, t: Token)
    requires IsRun(states, steps) && m <= n <= |steps| && t in states[m].operations
             && states[m].operations[t].stage.Finished?
    ensures t in states[n].operations && states[n].operations[t].stage.Finished?
    decreases n
  {
    if m < n {
      FinishedStays(states, steps, m, n - 1, t);
      assert Steps(states[n - 1], steps[n - 1], states[n]);
    }
  }

  // The operation has met a lock of another host, a young one or one whose owner lives.
  ghost predicate FindsBusy(s: State, step: Step) {
    && step.Judge? && Enabled(s, step)
    && var op := s.operations[step.token];
    var previous := op.stage.previous;
    previous.host != op.record.host || step.now - previous.createdAt < 30_000 || step.alive
  }

  // It then gives up for good.
  lemma BusyGivesUp(states: seq<State>, steps: seq<Step>, m: nat, n: nat)
    requires IsRun(states, steps) && m < n <= |steps| && FindsBusy(states[m], steps[m])
    ensures steps[m].token in states[n].operations && states[n].operations[steps[m].token].stage.Finished?
  {
    assert Steps(states[m], steps[m], states[m + 1]);
    FinishedStays(states, steps, m + 1, n, steps[m].token);
  }

  // How often an operation has tried to take the lock.
  function Renames(steps: seq<Step>, t: Token): nat {
    if steps == [] then 0
    else
      var last := steps[|steps| - 1];
      Renames(steps[..|steps| - 1], t) + if last.Rename? && last.token == t then 1 else 0
  }

  predicate CountOk(stage: Stage, renames: nat) {
    match stage
    case Trying(attempt) => attempt < 2 && renames == attempt
    case Reading(attempt) => attempt < 2 && renames == attempt + 1
    case Judging(attempt, _) => attempt < 2 && renames == attempt + 1
    case Recovering(attempt, _) => attempt < 2 && renames == attempt + 1
    case _ => renames <= 2
  }

  lemma StepCounts(s: State, step: Step, t: Token, renames: nat)
    requires Enabled(s, step) && (t in s.operations ==> CountOk(s.operations[t].stage, renames))
    requires t !in s.operations ==> renames == 0
    ensures var more := renames + if step.Rename? && step.token == t then 1 else 0;
            var after := Next(s, step);
            if t in after.operations then CountOk(after.operations[t].stage, more) else more == 0
  {
  }

  // An operation tries to take the lock twice at most.
  lemma {:induction false} TwoAttempts(states: seq<State>, steps: seq<Step>, n: nat, t: Token)
    requires IsRun(states, steps) && states[0] == INITIAL && n <= |steps|
    ensures Renames(steps[..n], t) <= 2
    ensures if t in states[n].operations then CountOk(states[n].operations[t].stage, Renames(steps[..n], t))
            else Renames(steps[..n], t) == 0
  {
    if n > 0 {
      TwoAttempts(states, steps, n - 1, t);
      assert Steps(states[n - 1], steps[n - 1], states[n]);
      assert steps[..n][..n - 1] == steps[..n - 1];
      StepCounts(states[n - 1], steps[n - 1], t, Renames(steps[..n - 1], t));
    }
  }

  // ----- The window between reading a record and testing its owner -----

  // Two operations act at once.
  ghost predicate BothAct(s: State, t: Token, u: Token) {
    t != u && t in s.operations && u in s.operations && s.operations[t].stage.Acting? && s.operations[u].stage.Acting?
  }

  lemma Joined(a: seq<State>, before: seq<Step>, b: seq<State>, after: seq<Step>)
    requires IsRun(a, before) && Careful(a, before) && IsRun(b, after) && Careful(b, after) && a[|before|] == b[0]
    ensures IsRun(a + b[1..], before + after) && Careful(a + b[1..], before + after)
  {
    var states, steps := a + b[1..], before + after;
    forall i | 0 <= i < |steps|
        ensures Steps(states[i], steps[i], states[i + 1]) && !MisjudgesReleased(states[i], steps[i]) {
      if i < |before| {
        assert Steps(a[i], before[i], a[i + 1]) && !MisjudgesReleased(a[i], before[i]);
      } else {
        var k := i - |before|;
        assert states[i] == b[k] && states[i + 1] == b[k + 1] && steps[i] == after[k];
        assert Steps(b[k], after[k], b[k + 1]) && !MisjudgesReleased(b[k], after[k]);
      }
    }
  }

  // A newcomer takes a lock that nobody holds.
  lemma Takes(s: State, newcomer: Record) returns (states: seq<State>, steps: seq<Step>)
    requires !s.lock.Holds? && newcomer.token !in s.operations
    ensures IsRun(states, steps) && Careful(states, steps) && states[0] == s
    ensures states[|steps|] == State(s.operations[newcomer.token := Operation(newcomer, Acting, true, false)],
                                     Holds(newcomer), s.tombstones)
  {
    var begun := Next(s, Begin(newcomer));
    var taken := Next(begun, Rename(newcomer.token, true));
    states, steps := [s, begun, taken], [Begin(newcomer), Rename(newcomer.token, true)];
    assert Steps(s, Begin(newcomer), begun) && Steps(begun, Rename(newcomer.token, true), taken);
  }

  // A recoverer that has taken a released owner for dead moves away whatever is in the
  // lock, and a newcomer then acts beside the operation whose lock that was.
  lemma Displaces(s: State, t: Token, holder: Token, newcomer: Record) returns (states: seq<State>, steps: seq<Step>)
    requires t in s.operations && s.operations[t].stage.Recovering?
             && s.operations[t].stage.previous.token !in s.tombstones
    requires holder in s.operations && s.operations[holder].stage.Acting? && s.lock.Holds?
    requires newcomer.token !in s.operations
    ensures IsRun(states, steps) && Careful(states, steps) && states[0] == s
    ensures BothAct(states[|steps|], holder, newcomer.token)
  {
    var moved := Next(s, Recover(t, true));
    assert Steps(s, Recover(t, true), moved);
    var rest, more := Takes(moved, newcomer);
    assert IsRun([s, moved], [Recover(t, true)]);
    Joined([s, moved], [Recover(t, true)], rest, more);
    states, steps := [s, moved] + rest[1..], [Recover(t, true)] + more;
    assert states[|steps|] == rest[|more|];
  }

  // One more step on a run.
  lemma Then(states: seq<State>, steps: seq<Step>, step: Step) returns (more: seq<State>)
    requires IsRun(states, steps) && Careful(states, steps)
    requires Enabled(states[|steps|], step) && !MisjudgesReleased(states[|steps|], step)
    ensures more == states + [Next(states[|steps|], step)]
    ensures IsRun(more, steps + [step]) && Careful(more, steps + [step])
  {
    var s := states[|steps|];
    assert Steps(s, step, Next(s, step));
    assert IsRun([s, Next(s, step)], [step]);
    Joined(states, steps, [s, Next(s, step)], [step]);
    more := states + [Next(s, step)];
  }

  // The operations of one process that still run.
  ghost function ActiveIn(s: State, host: string, pid: nat): set<Token> {
    set t | t in s.operations && s.operations[t].record.host == host && s.operations[t].record.pid == pid
        && s.operations[t].Active()
  }

  // Ending the operations of a process leaves everything else as it was.
  ghost predicate EndsOnly(s: State, host: string, pid: nat, after: State) {
    && after.lock == s.lock && after.tombstones == s.tombstones && after.operations.Keys == s.operations.Keys
    && forall t | t in s.operations ::
         if s.operations[t].record.host == host && s.operations[t].record.pid == pid then
           after.operations[t].record == s.operations[t].record
               && after.operations[t].released == s.operations[t].released
         else after.operations[t] == s.operations[t]
  }

  // Every operation of a process can come to an end.
  lemma {:induction false} ProcessEnds(s: State, host: string, pid: nat) returns (states: seq<State>, steps: seq<Step>)
    ensures IsRun(states, steps) && Careful(states, steps) && states[0] == s
    ensures EndsOnly(s, host, pid, states[|steps|]) && !ProcessActive(states[|steps|], host, pid)
    decreases |ActiveIn(s, host, pid)|
  {
    if ActiveIn(s, host, pid) == {} {
      states, steps := [s], [];
      assert forall t | t in s.operations :: t !in ActiveIn(s, host, pid);
    } else {
      var t :| t in ActiveIn(s, host, pid);
      var next := Next(s, Abandon(t));
      assert Steps(s, Abandon(t), next);
      assert ActiveIn(next, host, pid) == ActiveIn(s, host, pid) - {t};
      var rest, more := ProcessEnds(next, host, pid);
      assert IsRun([s, next], [Abandon(t)]) && Careful([s, next], [Abandon(t)]);
      Joined([s, next], [Abandon(t)], rest, more);
      states, steps := [s, next] + rest[1..], [Abandon(t)] + more;
      assert states[|steps|] == rest[|more|];
    }
  }

  // An observer has read the holder's record when the recoverer moves the holder's lock away.
  lemma ObserverReadsFirst(s: State, t: Token, observer: Record) returns (states: seq<State>, steps: seq<Step>)
    requires t in s.operations && s.operations[t].stage.Recovering?
             && s.operations[t].stage.previous.token !in s.tombstones
    requires s.lock.Holds? && observer.token !in s.operations
    ensures IsRun(states, steps) && Careful(states, steps) && states[0] == s
    ensures var last := states[|steps|];
            && last.lock == Missing && last.tombstones == s.tombstones[s.operations[t].stage.previous.token := s.lock]
            && last.operations.Keys == s.operations.Keys + {observer.token}
            && last.operations[observer.token] == Operation(observer, Judging(0, s.lock.owner), false, false)
            && forall u | u in s.operations ::
                 last.operations[u].record == s.operations[u].record
                     && last.operations[u].released == s.operations[u].released
  {
    var begun := Next(s, Begin(observer));
    var refused := Next(begun, Rename(observer.token, false));
    var judging := Next(refused, Read(observer.token));
    var moved := Next(judging, Recover(t, true));
    states := [s, begun, refused, judging, moved];
    steps := [Begin(observer), Rename(observer.token, false), Read(observer.token), Recover(t, true)];
    assert Steps(s, steps[0], begun) && Steps(begun, steps[1], refused);
    assert Steps(refused, steps[2], judging) && Steps(judging, steps[3], moved);
  }

  // The observer then finds the holder dead once its process has ended, by which time a
  // newcomer has the lock: it is displaced by another.
  lemma ObserverDisplaces(s: State, holder: Record, observer: Record, first: Record, second: Record)
    returns (states: seq<State>, steps: seq<Step>)
    requires s.lock == Missing && holder.token !in s.tombstones
    requires holder.token in s.operations && !s.operations[holder.token].released
    requires observer.token in s.operations
             && s.operations[observer.token] == Operation(observer, Judging(0, holder), false, false)
    requires observer.host == holder.host && observer.pid != holder.pid
    requires first.token !in s.operations && second.token !in s.operations && first.token != second.token
    ensures IsRun(states, steps) && Careful(states, steps) && states[0] == s
    ensures BothAct(states[|steps|], first.token, second.token)
  {
    states, steps := ProcessEnds(s, holder.host, holder.pid);
    var judge := Judge(observer.token, holder.createdAt + STALE_AFTER, false);
    var ended := states[|steps|];
    assert ended.operations[observer.token] == s.operations[observer.token];
    states := Then(states, steps, judge); steps := steps + [judge];
    var judged := states[|steps|];
    assert judged == Next(ended, judge);
    var a, before := Takes(judged, first);
    var b, after := Displaces(a[|before|], observer.token, first.token, second);
    Joined(a, before, b, after);
    var c, rest := a + b[1..], before + after;
    assert c[|rest|] == b[|after|];
    Joined(states, steps, c, rest);
    states, steps := states + c[1..], steps + rest;
    assert states[|steps|] == c[|rest|];
  }

  // A recoverer that has taken a released owner for dead breaks the lock whoever holds it,
  // a live operation or a dead one whose lock is still to be recovered.
  lemma HolderIsDisplaced(s: State, t: Token, observer: Record, first: Record, second: Record)
    returns (states: seq<State>, steps: seq<Step>)
    requires t in s.operations && s.operations[t].stage.Recovering?
             && s.operations[t].stage.previous.token !in s.tombstones
    requires s.lock.Holds? && s.lock.owner.token != s.operations[t].stage.previous.token
             && s.lock.owner.token !in s.tombstones
    requires s.lock.owner.token in s.operations && !s.operations[s.lock.owner.token].released
    requires observer.host == s.lock.owner.host && observer.pid != s.lock.owner.pid
    requires observer.token !in s.operations && first.token !in s.operations && second.token !in s.operations
    requires observer.token != first.token && observer.token != second.token && first.token != second.token
    ensures IsRun(states, steps) && Careful(states, steps) && states[0] == s
    ensures BothAct(states[|steps|], first.token, second.token)
  {
    var a, before := ObserverReadsFirst(s, t, observer);
    var b, after := ObserverDisplaces(a[|before|], s.lock.owner, observer, first, second);
    Joined(a, before, b, after);
    states, steps := a + b[1..], before + after;
    assert states[|steps|] == b[|after|];
  }

  lemma FreeLockIsTakenTwice(s: State, t: Token, first: Record, second: Record)
    returns (states: seq<State>, steps: seq<Step>)
    requires t in s.operations && s.operations[t].stage.Recovering?
             && s.operations[t].stage.previous.token !in s.tombstones
    requires !s.lock.Holds? && first.token !in s.operations && second.token !in s.operations
             && first.token != second.token
    ensures IsRun(states, steps) && Careful(states, steps) && states[0] == s
    ensures BothAct(states[|steps|], first.token, second.token)
  {
    var a, before := Takes(s, first);
    var b, after := Displaces(a[|before|], t, first.token, second);
    Joined(a, before, b, after);
    states, steps := a + b[1..], before + after;
    assert states[|steps|] == b[|after|];
  }

  lemma {:induction false} UnusedToken(used: set<Token>) returns (token: Token)
    ensures forall t | t in used :: t < token
    decreases used
  {
    if used == {} {
      token := 0;
    } else {
      var t :| t in used;
      var rest := UnusedToken(used - {t});
      token := if t < rest then rest else t + 1;
      forall u | u in used ensures u < token {
        assert u == t || u in used - {t};
      }
    }
  }

  // Whenever a released owner is taken for dead, some continuation lets two operations act
  // at once, without a second misjudgement.
  lemma MisjudgingBreaksExclusion(s: State, step: Step)
    returns (states: seq<State>, steps: seq<Step>, t: Token, u: Token)
    requires Ok(s) && MisjudgesReleased(s, step)
    ensures IsRun(states, steps) && states[0] == Next(s, step) && Careful(states, steps)
    ensures BothAct(states[|steps|], t, u)
  {
    assert OperationOk(s, step.token) && OperationOk(s, s.operations[step.token].stage.previous.token);
    var judged := Next(s, step);
    t := UnusedToken(s.operations.Keys);
    u := t + 1;
    if s.lock.Holds? {
      var holder := s.lock.owner;
      assert OperationOk(s, holder.token);
      states, steps := HolderIsDisplaced(judged, step.token, Record(t + 2, holder.pid + 1, holder.host, 0),
                                         Record(t, 0, "", 0), Record(u, 0, "", 0));
    } else {
      states, steps := FreeLockIsTakenTwice(judged, step.token, Record(t, 0, "", 0), Record(u, 0, "", 0));
    }
  }

  // Every continuation that does not misjudge (again) keeps the lock exclusive.
  ghost predicate SafeFrom(s: State) {
    forall states, steps | IsRun(states, steps) && Careful(states, steps) && states[0] == s ::
        Exclusive(states[|steps|])
  }

  // Testing liveness leaves the lock safe if and only if an owner found dead has not
  // released it since its record was read.
  lemma JudgingIsSafeExactly(s: State, t: Token, now: int, alive: bool)
    requires Ok(s) && Enabled(s, Judge(t, now, alive))
    ensures SafeFrom(Next(s, Judge(t, now, alive))) <==> !MisjudgesReleased(s, Judge(t, now, alive))
  {
    var step := Judge(t, now, alive);
    if MisjudgesReleased(s, step) {
      var states, steps, a, b := MisjudgingBreaksExclusion(s, step);
      assert !Exclusive(states[|steps|]);
    } else {
      JudgingKeepsOk(s, t, now, alive);
      forall states, steps | IsRun(states, steps) && Careful(states, steps) && states[0] == Next(s, step)
        ensures Exclusive(states[|steps|])
      {
        RunKeepsOk(states, steps, |steps|);
        OkIsExclusive(states[|steps|]);
      }
    }
  }

  // The window is reachable: A acts while B reads A's record; A releases and its process
  // exits; B then finds A dead, and by now its record is old enough.
  lemma TheWindowIsReachable(a: Record, b: Record) returns (states: seq<State>, steps: seq<Step>, judge: Step)
    requires a.token != b.token && a.host == b.host && a.pid != b.pid
    ensures IsRun(states, steps) && states[0] == INITIAL && Careful(states, steps)
    ensures MisjudgesReleased(states[|steps|], judge)
  {
    states, steps := Takes(INITIAL, a);
    var s := [INITIAL] + states[1..];
    assert s == states;
    states := Then(states, steps, Begin(b)); steps := steps + [Begin(b)];
    states := Then(states, steps, Rename(b.token, false)); steps := steps + [Rename(b.token, false)];
    states := Then(states, steps, Read(b.token)); steps := steps + [Read(b.token)];
    states := Then(states, steps, Unlink(a.token)); steps := steps + [Unlink(a.token)];
    states := Then(states, steps, RemoveDirectory(a.token)); steps := steps + [RemoveDirectory(a.token)];
    judge := Judge(b.token, a.createdAt + STALE_AFTER, false);
  }

  // ----- Recovery -----

  // A lock whose owner's process is gone does not stay: an operation on the same host,
  // left to itself, recovers and takes it once the record is old enough.
  lemma DeadOwnersAreRecovered(s: State, newcomer: Record, now: int) returns (states: seq<State>, steps: seq<Step>)
    requires Ok(s) && s.lock.Holds? && newcomer.token !in s.operations
    requires newcomer.host == s.lock.owner.host && now - s.lock.owner.createdAt >= STALE_AFTER
    requires newcomer.pid != s.lock.owner.pid && !ProcessActive(s, s.lock.owner.host, s.lock.owner.pid)
    ensures IsRun(states, steps) && states[0] == s && Careful(states, steps)
    ensures var last := states[|steps|];
            && newcomer.token in last.operations && last.operations[newcomer.token].stage.Acting?
            && last.lock == Holds(newcomer)
            && last.tombstones == s.tombstones[s.lock.owner.token := s.lock]
  {
    var t, previous := newcomer.token, s.lock.owner;
    assert OperationOk(s, previous.token);
    states, steps := [s], [];
    states := Then(states, steps, Begin(newcomer)); steps := steps + [Begin(newcomer)];
    states := Then(states, steps, Rename(t, false)); steps := steps + [Rename(t, false)];
    states := Then(states, steps, Read(t)); steps := steps + [Read(t)];
    assert states[3].operations[t].stage == Judging(0, previous);
    states := Then(states, steps, Judge(t, now, false)); steps := steps + [Judge(t, now, false)];
    states := Then(states, steps, Recover(t, true)); steps := steps + [Recover(t, true)];
    states := Then(states, steps, Rename(t, true)); steps := steps + [Rename(t, true)];
  }

  // An operation at either of its attempts that reads the record of a dead owner on its own
  // host can move that lock aside; after the first attempt it tries again, and after the
  // second it gives up, leaving the way free.
  lemma EitherAttemptRecovers(s: State, t: Token, now: int) returns (states: seq<State>, steps: seq<Step>)
    requires Ok(s) && s.lock.Holds? && t in s.operations && s.operations[t].stage.Reading?
    requires s.operations[t].record.host == s.lock.owner.host && now - s.lock.owner.createdAt >= 30_000
    requires !ProcessActive(s, s.lock.owner.host, s.lock.owner.pid)
    ensures IsRun(states, steps) && states[0] == s && Careful(states, steps)
    ensures var last := states[|steps|];
            && last.lock == Missing && last.tombstones == s.tombstones[s.lock.owner.token := s.lock]
            && t in last.operations
            && last.operations[t].stage == if s.operations[t].stage.attempt == 0 then Trying(1) else Finished
  {
    assert OperationOk(s, s.lock.owner.token);
    states, steps := [s], [];
    states := Then(states, steps, Read(t)); steps := steps + [Read(t)];
    states := Then(states, steps, Judge(t, now, false)); steps := steps + [Judge(t, now, false)];
    states := Then(states, steps, Recover(t, true)); steps := steps + [Recover(t, true)];
  }
}
