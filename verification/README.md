# Flight Recorder, modelled in Dafny

Flight Recorder keeps traces of agent runs: a run is started, events are recorded into it, usage
snapshots are imported over it, and it is completed and later pruned. This project models the parts of
the system that keep state or speak a protocol, and proves what they keep over whole histories and in
every interleaving. Run `dafny verify dfyconfig.toml` to verify it.

The modules, by component:

- **Runs and events**: `Results`, `Text`, `Totals`, `Trace`, `Policy`, `UsageImports`, `TaskContexts`,
  `TaskUsage`, `TaskItems`. Absent measurements are unknown, never zero. Tasks are attributed by replaying a stack.
- **The recorder service**: `Recording`, `Normalising`, `Importing` and `Decoding` are the four pieces of
  code that write and read runs; the callbacks of the service are loops proved against functions.
  `Accounting` is what a batch adds to the totals of a run. `RunInvariants` is what every run keeps.
  `Retention` and `Stores` are the two stores; `Service` is one step of the service over either, and its
  histories; `FlightRecorder` is the service as an object.
- **Whole histories**: `Evolution` (a run only grows, replays are idempotent), `Metering` (totals are those
  of the last accepted snapshot), `RetentionHistory` (pruning step by step against one selection),
  `Privacy` (metadata-only runs hold no content).
- **What requests, rows and records come to**, said over their own fields: `RecordedContents` (starting and
  recording), `ImportOutcomes` (importing), `StoredRuns` (reading rows back, pruning), `TraceMatching` (pairing
  events), `DeltaRecords` (one record of a delta log), `ReadContents` (every observation that is read), `SdkDelivery`
  (what becomes of a usage event), `BadgeContents` (what a frame says and a device shows).
- **The operation lock**: `OperationLock`, steps of any number of operations over one directory.
- **Trace comparison**: `JsonText`, `TraceKeys`, `TraceIndex`, `TraceCompare`.
- **The usage reader and collector**: `JsonTree`, `DeltaLog`, `UsageReader`, `EventReader`, `EventEvidence`,
  `DatabaseReader`, `UsageSnapshots`, `Collector`.
- **The delivery paths**: `SdkCapture` (the SDK adapter's queue) and `BadgeFrames` and `BadgeReading`
  (the badge link).

Redaction, secret keys, SHA-256, identifiers, clocks, number printing and JSON parsing come from outside.
They are parameters (`Policy.Environment`, `UsageReader.Context`, `BadgeFrames.Wire`), and the premises on
them are named predicates: `FreshIdentifiers`, `HashesAreHashes`, `RedactionKeepsModelsValid`,
`RedactionCreatesNoCacheKey`, `RedactionKeepsHex`, `DigestsAreHashes`, `PrintsShort`, `ReadsBack`. They can hold:
`Service.PremisesCanHold`, `UsageReader.SomeDigestsAreHashes` and `BadgeReading.PremisesCanHold` give parameters that
meet them. No hash tells all snapshots apart, so `ToldApart` is asked only of the two snapshots a theorem is about;
likewise a link has finitely many numbers, and `HoldsNumbers` says that a summary holds such numbers.
`RedactionKeepsModelsValid` is needed because an import stores the redacted model while reading a run back validates
what is stored. The clock of an import reads a time from 1970 to 9999 (`Timely`), as a DateTimeOffset cannot go further.

Some promises turn out to depend on a condition. Each is stated with the condition under which it holds:

- Pruning step by step equals one selection unless a run is completed *again* with a key behind a run pruned
  before; `RetentionHistory.PruningAgreesExactly` gives the condition and `EarlierCompletionDisagrees` a history.
- The lock excludes unless an owner found dead has released since its record was read: reading `owner.json`
  and testing liveness are two steps. `OperationLock.JudgingIsSafeExactly` gives the condition for exclusion in every
  continuation, `TheWindowIsReachable` and `MisjudgingBreaksExclusion` the run. The comment in the source about
  tombstones holds for every tombstone made outside that window.
- The recorder accepts what the reader sends unless an observation is dated before 1970 or, through an offset, after
  9999; the reader lets both through (`UsageSnapshots.SnapshotsAreAccepted`, `UndatableCallIsRefused`).
- Estimated counters and cache counters are never combined by the callers of `observation`; if they were, the
  recorder would refuse the observation (`UsageReader.EstimatesBesideCacheCountersAreRefused`).
- A retry under the current revision is acknowledged exactly for the same source and normalised snapshot if and
  only if the fingerprints of the two snapshots do not collide (`Metering.RetryIsExact`).

## Model

| member | source | states |
|---|---|---|
| Totals.TotalOfConcat | src/FlightRecorder.Api/Models/FlightEvent.cs:135-148 | a total over two lists is the null-aware sum of their totals; an unreported value is never taken for zero |
| Totals.TotalIsAbsent | src/FlightRecorder.Api/Models/FlightEvent.cs:137-147 | a total is absent exactly when no value was reported |
| Totals.TallyIsOrderFree | src/FlightRecorder.Api/Models/FlightEvent.cs:137-141 | two duplicate-free listings have one total when every key only the longer one has counts as nothing |
| Text.TrimIgnoresPadding | src/FlightRecorder.Api/Services/FlightRecorderService.UsageImports.cs:18 | padding on either side does not change what is left of a text after trimming |
| UsageImports.Validate | src/FlightRecorder.Api/Models/UsageImport.cs:56-101 | a snapshot is accepted exactly when it satisfies every rule: fingerprints, source and format, 1 to 1000 observations, distinct ids in any letter case, counters that agree with the quality |
| TaskContexts.ReplayTasks | src/FlightRecorder.Api/Services/FlightRecorderService.cs:157-176 | the stack loop computes the task context of the whole event list |
| TaskContexts.StackIsExactlyTheActiveTasks | src/FlightRecorder.Api/Services/FlightRecorderService.cs:160-174 | the stack has no duplicates and holds exactly the tasks with a start after their last completion |
| TaskContexts.CurrentTaskIsLatestActivation | src/FlightRecorder.Api/Services/FlightRecorderService.cs:175 | the current task is the active one whose activation is the latest |
| TaskContexts.NoTaskIsCurrent | src/FlightRecorder.Api/Services/FlightRecorderService.cs:175 | there is no current task exactly when no task is active |
| TaskContexts.ParentsComeFromFirstMention | src/FlightRecorder.Api/Services/FlightRecorderService.cs:164 | the parent of a task is the one named by the first event that mentions it |
| TaskContexts.BuildTaskContext | src/FlightRecorder.Api/Tools/FlightRecorderMcpTools.cs:279-300 | the replay of the MCP tools ends with the same stack and parents as the recorder's own |
| TaskContexts.AttributedEventsSuffice | src/FlightRecorder.Api/Tools/FlightRecorderMcpTools.cs:284 | leaving out events without a task changes neither the stack nor the parents nor the names |
| TaskContexts.ContextDependsOnAttribution | src/FlightRecorder.Api/Services/FlightRecorderService.cs:161-163 | the context depends on nothing but the task fields and lifecycle attributes, and events without a task behind the list leave it alone |
| Policy.ProtectAttributes | src/FlightRecorder.Api/Services/FlightRecorderService.cs:143-155 | the loop keeps exactly the protected attributes of the request |
| Policy.KeptAttributesAreAllowed | src/FlightRecorder.Api/Services/FlightRecorderService.cs:149-152 | whatever attribute is kept came from an entry the recording mode allows, with the value of a secret key replaced |
| Policy.AllowedAttributesAreKept | src/FlightRecorder.Api/Services/FlightRecorderService.cs:147-153 | an entry the mode allows is kept under its protected name |
| Policy.ProtectionAddsNoCacheCounter | src/FlightRecorder.Api/Services/FlightRecorderService.UsageImports.cs:87-88 | protection never makes a cache counter of an attribute that was none |
| Privacy.MetadataOnlyRunsHoldNoContent | src/FlightRecorder.Api/Services/FlightRecorderService.cs:133-155 | after any history a metadata-only run holds no input, output or objective and no attribute but metadata keys |
| Privacy.RecordedEventIsAttributed | src/FlightRecorder.Api/Services/FlightRecorderService.cs:51-94 | an event is under the task it names, else the one activated last; its parent task is the one it names, else that of the first event of its task |
| Privacy.FullRunsKeepEverything | src/FlightRecorder.Api/Services/FlightRecorderService.cs:56-90 | an accepted batch on a run recorded in full is answered request by request with an event of the run: the replayed one of its span, or one that says every field as sent, counters and costs included |
| Recording.RecordInto | src/FlightRecorder.Api/Services/FlightRecorderService.cs:51-94 | the loop records the batch event by event or refuses it whole with the first error |
| Recording.RefusalIsFinal | src/FlightRecorder.Api/Services/FlightRecorderService.cs:51-94 | once a prefix of a batch is refused the batch is refused with the same error |
| Accounting.RecordOneConserves | src/FlightRecorder.Api/Services/FlightRecorderService.cs:56-90 | a replayed request leaves every total alone; any other adds exactly the counter it reports, an unreported one as unknown |
| Accounting.RecordingConserves | src/FlightRecorder.Api/Services/FlightRecorderService.cs:51-94 | after an accepted batch each total of the run is the total before it combined with what the newly recorded requests report |
| Normalising.NormaliseSorts | src/FlightRecorder.Api/Services/FlightRecorderService.UsageImports.cs:16-19 | the normalised snapshot of distinct observations is strictly ordered by id |
| Normalising.SortedFormIsUnique | src/FlightRecorder.Api/Services/FlightRecorderService.UsageImports.cs:19 | two strictly ordered snapshots of the same observations are the same snapshot |
| Normalising.NormaliseIsCanonical | src/FlightRecorder.Api/Services/FlightRecorderService.UsageImports.cs:13-23 | reordering observations, letter case of ids, timestamp offsets and padding of models do not change the normalised snapshot |
| Normalising.NormaliseKeepsValid | src/FlightRecorder.Api/Services/FlightRecorderService.UsageImports.cs:16-19 | normalising keeps every rule a snapshot is validated by |
| Decoding.Decode | src/FlightRecorder.Api/Services/SqliteTraceRunStore.cs:152-188 | a stored row is read back exactly when its columns match, ids are unique, parents are earlier events and the provenance holds; otherwise it is a storage error |
| Decoding.ValidateUsageImports | src/FlightRecorder.Api/Services/SqliteTraceRunStore.cs:190-231 | the provenance check accepts exactly the runs with no import at all, or with one valid cursor, 1 to 1000 distinct valid imported events and no other metering |
| Decoding.ValidateProvenance | src/FlightRecorder.Api/Services/SqliteTraceRunStore.cs:205-229 | the hash-set loop accepts exactly pairwise distinct observations that are each acceptable |
| Decoding.ImportedInOrder | src/FlightRecorder.Api/Services/SqliteTraceRunStore.cs:190-229 | observations are distinct in place exactly when they are distinct among the imported events alone |
| Importing.ByObservation | src/FlightRecorder.Api/Services/FlightRecorderService.UsageImports.cs:42-43 | the dictionary holds each imported event under its observation |
| Importing.PlaceOne | src/FlightRecorder.Api/Services/FlightRecorderService.UsageImports.cs:49-63 | one observation replaces the event that held it, or is added under a fresh id |
| Importing.PlaceObservations | src/FlightRecorder.Api/Services/FlightRecorderService.UsageImports.cs:46-63 | after the first loop exactly the unmentioned observations are left and every mentioned one is placed |
| Importing.WithdrawRest | src/FlightRecorder.Api/Services/FlightRecorderService.UsageImports.cs:64-76 | the second loop withdraws exactly what the snapshot no longer mentions |
| Importing.ReplaceSnapshot | src/FlightRecorder.Api/Services/FlightRecorderService.UsageImports.cs:46-82 | dictionary removals and replacements together correct every imported event in place and append the new ones in order |
| Importing.ImportUsage | src/FlightRecorder.Api/Services/FlightRecorderService.UsageImports.cs:25-83 | the callback refuses, acknowledges or replaces in the order of its checks, and replaces with the whole corrected run |
| RunInvariants.LegalRunsReadBack | src/FlightRecorder.Api/Services/SqliteTraceRunStore.cs:152-231 | every run with the service's invariant is accepted by the reader and comes back unchanged |
| RunInvariants.StartedRunIsLegal | src/FlightRecorder.Api/Services/FlightRecorderService.cs:27-36 | a started run has the invariant |
| RunInvariants.RecordingKeepsLegal | src/FlightRecorder.Api/Services/FlightRecorderService.cs:51-94 | recording keeps it: unique ids, earlier parents, no metering beside an import |
| RunInvariants.CorrectedIsLegal | src/FlightRecorder.Api/Services/FlightRecorderService.UsageImports.cs:49-76 | a corrected or withdrawn event keeps id, parent and observation and satisfies the reader's provenance rules |
| RunInvariants.AdditionsAreNew | src/FlightRecorder.Api/Services/FlightRecorderService.UsageImports.cs:55-61 | added events have ids and observations no event of the run has |
| RunInvariants.CountAfterImport | src/FlightRecorder.Api/Services/FlightRecorderService.UsageImports.cs:44-45 | after an import the run has exactly the old and new observations, at least one and at most 1000 |
| RunInvariants.ImportKeepsLegal | src/FlightRecorder.Api/Services/FlightRecorderService.UsageImports.cs:25-83 | importing keeps the invariant |
| Retention.RankedIsSorted | src/FlightRecorder.Api/Services/InMemoryTraceRunStore.cs:50-58 | the retention order sorts all completed runs without loss |
| Retention.SkipIsTheRest | src/FlightRecorder.Api/Services/InMemoryTraceRunStore.cs:52-57 | skipping N of the sorted list leaves exactly the keys not among the latest N |
| Retention.LatestCount | src/FlightRecorder.Api/Services/InMemoryTraceRunStore.cs:50-58 | exactly N runs are kept when more than N are completed, all of them otherwise |
| Retention.CompletingAgrees | src/FlightRecorder.Api/Services/InMemoryTraceRunStore.cs:36-58 | completing a run for the first time: pruning the pruned store selects what one selection from all completed runs would |
| Retention.RecompletingAgrees | src/FlightRecorder.Api/Services/InMemoryTraceRunStore.cs:36-58 | completing a stored run again: the two agree if and only if no run pruned earlier comes ahead of its new key |
| Retention.LaterStaysAhead | src/FlightRecorder.Api/Services/InMemoryTraceRunStore.cs:50-58 | a completion time that does not move earlier never lets a pruned run ahead |
| Stores.InMemoryTraceRunStore.Add | src/FlightRecorder.Api/Services/InMemoryTraceRunStore.cs:17-24 | refuses a known id; otherwise stores the run and keeps every unfinished run and the latest completed ones |
| Stores.InMemoryTraceRunStore.Update | src/FlightRecorder.Api/Services/InMemoryTraceRunStore.cs:36-48 | hands the stored run to the callback; stores its answer, refusing a changed id, and prunes when the run is completed |
| Stores.InMemoryTraceRunStore.Prune | src/FlightRecorder.Api/Services/InMemoryTraceRunStore.cs:50-58 | removing the runs behind the first N of the sorted list leaves exactly the retained ones |
| Stores.SqliteTraceRunStore.Initialize | src/FlightRecorder.Api/Services/SqliteTraceRunStore.cs:76-114 | opening refuses a database with any unreadable row and otherwise prunes it |
| Stores.SqliteTraceRunStore.Add | src/FlightRecorder.Api/Services/SqliteTraceRunStore.cs:35-43 | refuses a known id; otherwise inserts the row, pruning only after a completed run |
| Stores.SqliteTraceRunStore.Get | src/FlightRecorder.Api/Services/SqliteTraceRunStore.cs:45-49 | reads and checks the row |
| Stores.SqliteTraceRunStore.Update | src/FlightRecorder.Api/Services/SqliteTraceRunStore.cs:57-74 | decodes the row, and writes the callback's answer or changes nothing |
| Stores.SqliteTraceRunStore.Prune | src/FlightRecorder.Api/Services/SqliteTraceRunStore.cs:245-256 | ordering the completed rows and deleting those after the first N leaves the latest N of them, and every unfinished row as it was |
| Stores.PrunedRowKeys | src/FlightRecorder.Api/Services/SqliteTraceRunStore.cs:245-256 | the completed rows that are left are exactly the latest of those there were |
| Stores.KeysOfRetained | src/FlightRecorder.Api/Services/InMemoryTraceRunStore.cs:50-58 | the completed runs that are left are the latest of those that were stored |
| Stores.PruningMirrors | src/FlightRecorder.Api/Services/SqliteTraceRunStore.cs:245-256 | deleting rows by offset and sorting objects leave the same runs |
| Service.StepKeepsInvariant | src/FlightRecorder.Api/Services/FlightRecorderService.cs:27-100 | every operation keeps the invariant of every stored run, and the store within its limit |
| Service.EverythingWrittenReadsBack | src/FlightRecorder.Api/Services/SqliteTraceRunStore.cs:152-231 | after any history every stored run is accepted by the reader and comes back unchanged |
| Service.StepsAgree | src/FlightRecorder.Api/Services/SqliteTraceRunStore.cs:35-74 | one step over either store gives the same reply and the same runs |
| Service.StoresSimulateEachOther | src/FlightRecorder.Api/Services/InMemoryTraceRunStore.cs:17-58 | for every history and limit both stores reply alike and hold the same runs, and reopening the database refuses and changes nothing |
| Service.StepRun | src/FlightRecorder.Api/Services/FlightRecorderService.cs:27-100 | a run stored after a step was started by it, is untouched by it, or is what the operation made of it |
| FlightRecorder.FlightRecorderService.StartRun | src/FlightRecorder.Api/Services/FlightRecorderService.cs:27-36 | starts and stores a run, or refuses a blank request |
| FlightRecorder.FlightRecorderService.RecordEvents | src/FlightRecorder.Api/Services/FlightRecorderService.cs:51-94 | the loop over the batch and the store together do one step of the service |
| FlightRecorder.FlightRecorderService.ImportUsage | src/FlightRecorder.Api/Services/FlightRecorderService.UsageImports.cs:10-85 | validation, normalisation, the import loops and the store together do one step of the service |
| FlightRecorder.FlightRecorderService.CompleteRun | src/FlightRecorder.Api/Services/FlightRecorderService.cs:96-100 | completes a stored run and prunes |
| Evolution.ImportEvolves | src/FlightRecorder.Api/Services/FlightRecorderService.UsageImports.cs:46-82 | an import keeps the id, position, parent and attribution of every event |
| Evolution.CorrectionsKeepUnknownTimes | src/FlightRecorder.Api/Services/FlightRecorderService.UsageImports.cs:49-76 | a correction that observes a time takes it; one that does not, like a withdrawal, keeps the time and what it was said to mean |
| Evolution.HistoryEvolves | src/FlightRecorder.Api/Services/FlightRecorderService.cs:51-100 | from any point of a history on, a stored run only grows and its events keep what they keep |
| Evolution.EventIdsOnlyGrow | src/FlightRecorder.Api/Services/FlightRecorderService.UsageImports.cs:78-82 | event ids only grow at the end, and a parent reference points at the same earlier event for the life of the run |
| Evolution.GoneStaysGone | src/FlightRecorder.Api/Services/InMemoryTraceRunStore.cs:50-58 | a run that was stored at one point of a history and is gone at a later one is not stored at any point after |
| Evolution.ImportKeepsTaskContext | src/FlightRecorder.Api/Services/FlightRecorderService.cs:157-176 | importing usage changes neither the current task nor any parent |
| Evolution.RecordingAnswers | src/FlightRecorder.Api/Services/FlightRecorderService.cs:58-67 | an accepted ingested batch is answered, request by request, with the first event of its span |
| Evolution.ReplayIsIdempotent | src/FlightRecorder.Api/Services/FlightRecorderService.cs:58-67 | replaying an accepted batch at any later time while its run is stored returns the same events in order and changes nothing |
| Evolution.RefusalChangesNothing | src/FlightRecorder.Api/Services/FlightRecorderService.cs:51-94 | a refused operation changes nothing, and "not found" is said exactly of unknown runs |
| Metering.ImportMirrors | src/FlightRecorder.Api/Services/FlightRecorderService.UsageImports.cs:46-82 | after an accepted snapshot every event counts for exactly what the snapshot says of it |
| Metering.RecordingMirrors | src/FlightRecorder.Api/Services/FlightRecorderService.cs:68-71 | recording into a bound run adds no counters |
| Metering.MirrorTotals | src/FlightRecorder.Api/Models/FlightEvent.cs:87-92 | a run that mirrors a snapshot totals what the snapshot reports |
| Metering.TotalsAreTheLastSnapshots | src/FlightRecorder.Api/Models/FlightEvent.cs:87-92 | after any history the input, output, estimated, cache and nano-AIU totals of a bound run are those of the last accepted snapshot alone |
| Metering.AcceptedNamesWhatItReplaces | src/FlightRecorder.Api/Services/FlightRecorderService.UsageImports.cs:27-41 | each accepted change names as expected exactly the revision it replaces, and brings another one of the same source |
| Metering.ReplacesWhatWasRead | src/FlightRecorder.Api/Services/FlightRecorderService.UsageImports.cs:27-41 | the snapshot an accepted import replaces is the one that was current when the client read the cursor if and only if no import of the run was accepted since |
| Metering.AcceptedExactly | src/FlightRecorder.Api/Services/FlightRecorderService.UsageImports.cs:27-45 | an import into a bound run is accepted as a change exactly when it is of the same source, names the current revision, brings another, and leaves no more than 1000 observations |
| Metering.RetryIsExact | src/FlightRecorder.Api/Services/FlightRecorderService.UsageImports.cs:27-39 | an import under the current revision changes nothing; it is acknowledged for the same source and normalised snapshot and a conflict otherwise, if and only if the fingerprints of the two snapshots, when of one source, do not collide |
| Metering.RewrittenRetryIsNoChange | src/FlightRecorder.Api/Services/FlightRecorderService.UsageImports.cs:13-39 | a retry that only reorders or rewrites the observations is acknowledged as no change, whatever the fingerprints |
| Metering.FirstImportIsAccepted | src/FlightRecorder.Api/Services/FlightRecorderService.UsageImports.cs:25-45 | a run just started accepts any first snapshot that names no revision, and is then bound to it |
| Metering.NormaliseKeepsTotals | src/FlightRecorder.Api/Services/FlightRecorderService.UsageImports.cs:16-19 | normalising does not change what a snapshot totals |
| RetentionHistory.CompletionAgreesExactly | src/FlightRecorder.Api/Services/InMemoryTraceRunStore.cs:36-58 | a completion keeps the store equal to one offline selection if and only if the run does not fall behind a pruned one |
| RetentionHistory.UnfinishedRunsAreStored | src/FlightRecorder.Api/Services/InMemoryTraceRunStore.cs:50-58 | after any history every run started and never completed is stored, unfinished |
| RetentionHistory.PruningAgreesExactly | src/FlightRecorder.Api/Services/InMemoryTraceRunStore.cs:17-58 | throughout a history the stored completed runs are the latest N of all ever completed if and only if no repeated completion falls behind a run pruned before it |
| RetentionHistory.IncrementalPruningIsOfflineSelection | src/FlightRecorder.Api/Services/InMemoryTraceRunStore.cs:17-58 | when no completion time moves earlier, pruning step by step is one selection from everything ever completed |
| RetentionHistory.EarlierCompletionDisagrees | src/FlightRecorder.Api/Services/InMemoryTraceRunStore.cs:36-58 | a concrete history of five operations after which the two differ |
| OperationLock.StepKeepsOk | extensions/flight-recorder/local-recorder.cjs:278-315 | every step of every operation, crashes included, keeps the lock invariant unless it takes a released owner for dead |
| OperationLock.MutualExclusion | extensions/flight-recorder/local-recorder.cjs:278-315 | at every point of every such run at most one operation is between acquiring and releasing, and the lock holds its record |
| OperationLock.ReleasesRemoveTheirOwn | extensions/flight-recorder/local-recorder.cjs:311-313 | a release finds and removes its own record only, only the holder's own release takes its record away, and tombstones are never overwritten |
| OperationLock.RecoveringTakesTheDead | extensions/flight-recorder/local-recorder.cjs:302-305 | a recovery moves exactly the dead owner's lock, to a tombstone that did not exist |
| OperationLock.JudgingIsSafeExactly | extensions/flight-recorder/local-recorder.cjs:295-301 | testing liveness leaves the lock exclusive in every continuation if and only if an owner found dead has not released since its record was read |
| OperationLock.MisjudgingBreaksExclusion | extensions/flight-recorder/local-recorder.cjs:295-305 | whenever a released owner is taken for dead, whoever holds the lock by then, some continuation without a second misjudgement lets two operations act at once |
| OperationLock.TheWindowIsReachable | extensions/flight-recorder/local-recorder.cjs:295-301 | such a misjudgement is reachable: the owner releases and exits between the read and the test |
| OperationLock.DeadOwnersAreRecovered | extensions/flight-recorder/local-recorder.cjs:290-309 | the lock of a crashed owner is recovered by an operation on the same host once it is old enough |
| JsonText.CharReadsBack | src/FlightRecorder.Api/Services/TraceViewService.cs:67 | an escaped character reads back as itself whatever follows it |
| JsonText.TextReadsBack | src/FlightRecorder.Api/Services/TraceViewService.cs:67 | a JSON string reads back as its text, ending at its own closing quote |
| JsonText.NumberReadsBack | src/FlightRecorder.Api/Services/TraceViewService.cs:70 | an occurrence number reads back up to its slash |
| TraceKeys.SegmentReadsBack | src/FlightRecorder.Api/Services/TraceViewService.cs:67-70 | one path segment reads back as type, agent, name and occurrence |
| TraceKeys.PathsAreDecodable | src/FlightRecorder.Api/Services/TraceViewService.cs:66-71 | two paths with one text are one path |
| TraceKeys.SignaturesAreDecodable | src/FlightRecorder.Api/Services/TraceViewService.cs:66-67 | two signatures agree only for one parent path, type, agent and name |
| TraceIndex.KeysAreUnique | src/FlightRecorder.Api/Services/TraceViewService.cs:59-75 | no two events of a run have the same key |
| TraceIndex.Index | src/FlightRecorder.Api/Services/TraceViewService.cs:59-75 | the three dictionaries give each event its path key, and the result holds each event under it |
| TraceCompare.Compare | src/FlightRecorder.Api/Services/TraceViewService.cs:28-40 | the rows are those of the baseline keys in order and then of the candidate's other keys |
| TraceCompare.RowKeys | src/FlightRecorder.Api/Services/TraceViewService.cs:32 | no two rows have the same key and every key of either run has a row |
| TraceCompare.MatchingIsPartialBijection | src/FlightRecorder.Api/Services/TraceViewService.cs:32-40 | an event is matched with at most one event of the other run |
| TraceCompare.BaselineEventHasOneRow | src/FlightRecorder.Api/Services/TraceViewService.cs:32-40 | each baseline event is in exactly one row |
| TraceCompare.CandidateEventHasOneRow | src/FlightRecorder.Api/Services/TraceViewService.cs:32-40 | each candidate event is in exactly one row |
| TraceCompare.RowOfBaseline | src/FlightRecorder.Api/Services/TraceViewService.cs:34-39 | that row shows the matched event if there is one and says Removed otherwise |
| TraceCompare.RowOfCandidate | src/FlightRecorder.Api/Services/TraceViewService.cs:34-39 | that row shows the matched event if there is one and says Added otherwise |
| TraceCompare.MatchedEventsHaveMatchedParents | src/FlightRecorder.Api/Services/TraceViewService.cs:59-75 | matched events have one type, agent and name, and their parents are matched with each other |
| TraceCompare.SelfComparisonIsUnchanged | src/FlightRecorder.Api/Services/TraceViewService.cs:28-40 | comparing a run with itself pairs each event with itself, unchanged |
| TraceCompare.ComparisonIsMirrored | src/FlightRecorder.Api/Services/TraceViewService.cs:32-40 | exchanging the runs exchanges the sides of every row and Added with Removed |
| TraceCompare.EventCountDelta | src/FlightRecorder.Api/Services/TraceViewService.cs:44 | the difference of the event counts is the added rows less the removed ones |
| JsonTree.ValidateTree | extensions/flight-recorder/usage-sources.cjs:124-137 | draining the worklist accepts exactly the trees within the bounds and the shared budget, and adds exactly the tree's node count |
| DeltaLog.DeltaState | extensions/flight-recorder/usage-sources.cjs:275-310 | replays a log record by record and accepts it exactly when every record applies and the result is within the bounds |
| DeltaLog.ReplayIsCompositional | extensions/flight-recorder/usage-sources.cjs:278-306 | replaying a log in two parts is replaying it whole |
| DeltaLog.RestartForgets | extensions/flight-recorder/usage-sources.cjs:281-285 | behind any valid beginning a kind-0 record makes the beginning irrelevant |
| DeltaLog.PutChangesOne | extensions/flight-recorder/usage-sources.cjs:262-273 | writing a checked property of an object or array changes that property and no other |
| DeltaLog.SetReaches | extensions/flight-recorder/usage-sources.cjs:297-298 | after a set, the path leads to the value |
| DeltaLog.AppendReaches | extensions/flight-recorder/usage-sources.cjs:299-304 | after an append, the path leads to the array that was there, or an empty one, with the additions behind it and within the length limit |
| DeltaLog.OtherPathsAreKept | extensions/flight-recorder/usage-sources.cjs:289-305 | whatever is not on the path keeps its value or stays missing |
| DeltaLog.ContainersOnTheWay | extensions/flight-recorder/usage-sources.cjs:292-296 | containers on the way keep their kind or are created as the next segment asks |
| DeltaLog.ReplayKeepsArraysShort | extensions/flight-recorder/usage-sources.cjs:262-306 | records that were each within bounds never make an array longer than 10000 |
| UsageReader.NumberValue | extensions/flight-recorder/usage-sources.cjs:145-153 | absent and null give none, a whole number within bounds is returned as it is, and anything else is an error |
| UsageReader.LabelsAreValidModels | extensions/flight-recorder/usage-sources.cjs:155-162 | a label the reader lets through is a model the recorder accepts |
| UsageReader.Estimate | extensions/flight-recorder/usage-sources.cjs:186-189 | an estimate is the characters divided by four, rounded up |
| UsageReader.Agreed | extensions/flight-recorder/usage-sources.cjs:213-218 | several places reporting a value must agree, and the value is the one they report |
| UsageReader.ObservedIsEmitted | extensions/flight-recorder/usage-sources.cjs:179-196 | an observation has a hash id, counters in range and a quality that agrees with the counters present |
| UsageReader.EstimatesBesideCacheCountersAreRefused | extensions/flight-recorder/usage-sources.cjs:179-196 | estimates beside cache counters would be refused by the recorder; no caller combines them |
| UsageReader.ChatIsEmitted | extensions/flight-recorder/usage-sources.cjs:244-260 | every chat request becomes one such observation |
| UsageReader.RequestIsReadExactly | extensions/flight-recorder/usage-sources.cjs:206-260 | a chat request is read if and only if it has a part of a request, the places that report a count agree, and what is estimated is not too long |
| UsageReader.StatesAreReadExactly | extensions/flight-recorder/usage-sources.cjs:244-260 | a chat state is read if and only if it lists at most 1000 requests that can each be read |
| EventEvidence.PositionsAre | extensions/flight-recorder/usage-sources.cjs:329-344 | the records of a kind are listed once each and in order |
| EventEvidence.ScanFollowsTheLog | extensions/flight-recorder/usage-sources.cjs:333-346 | the calls read are those of the call records, in order, and the shutdowns are the shutdown records, in order |
| EventEvidence.StartsAre | extensions/flight-recorder/usage-sources.cjs:346-357 | a request starts at every prompt, and at a reply that no prompt or reply precedes |
| EventEvidence.RequestsFollowTheLog | extensions/flight-recorder/usage-sources.cjs:346-357 | each request is its first record with the characters, tokens and last model of all the replies up to the next request |
| EventEvidence.LogsAreScannedExactly | extensions/flight-recorder/usage-sources.cjs:329-363 | a log is scanned if and only if every record can be read on its own and no request has too many output tokens |
| EventEvidence.EvidenceIsSelected | extensions/flight-recorder/usage-sources.cjs:364-394 | a log that is read has a recognised record, and gives its calls when one is measured, else the totals of its last shutdown, else its unmeasured calls, else its requests |
| EventEvidence.ShutdownsAreReadExactly | extensions/flight-recorder/usage-sources.cjs:368-383 | a shutdown is read if and only if every model lists counts and the billed amount is one or absent |
| EventEvidence.LogsAreReadExactly | extensions/flight-recorder/usage-sources.cjs:322-395 | a log is read if and only if it can be scanned, has a recognised record, and the last shutdown or the requests, where they are used, can be read |
| EventEvidence.EventObservations | extensions/flight-recorder/usage-sources.cjs:322-395 | the loop reads what the log gives by that selection, and refuses exactly the logs that cannot be read |
| EventReader.EventsAreEmitted | extensions/flight-recorder/usage-sources.cjs:322-395 | everything read from an event log is acceptable to the recorder |
| EventReader.OutputTokensAreConserved | extensions/flight-recorder/usage-sources.cjs:348-357 | the output tokens attributed to requests total exactly what the replies report |
| DatabaseReader.SumByModel | extensions/flight-recorder/usage-sources.cjs:512-525 | the aggregation loop holds for each model and column the sum of its cells and whether one is missing |
| DatabaseReader.KeyedRowsAreReadExactly | extensions/flight-recorder/usage-sources.cjs:502-511 | rows with a stable key are read if and only if each has a model or none, a key of 1 to 512 characters, and counts in range or nothing in its cells |
| DatabaseReader.AggregationIsExact | extensions/flight-recorder/usage-sources.cjs:526-536 | a model's counter is the exact sum over its rows when all report it, absent otherwise, and an error when it is out of range |
| UsageSnapshots.CheckLines | extensions/flight-recorder/usage-sources.cjs:559-566 | a log is accepted exactly when it has 1 to 50000 records, each within bounds, with all nodes within one budget |
| UsageSnapshots.PerModel | extensions/flight-recorder/usage-sources.cjs:512-537 | without a stable key there is one observation a model, with the complete totals of its rows; it fails exactly when a row is unreadable or a complete total is out of range |
| UsageSnapshots.Deduplicate | extensions/flight-recorder/usage-sources.cjs:399-404 | repetitions are dropped, and refused exactly when two observations with one id differ |
| UsageSnapshots.ReadSource | extensions/flight-recorder/usage-sources.cjs:540-575 | a source is read if and only if its kind may hold such a file, every record in it can be read by the rules of its format, and what it says is at most 1000 observations that agree; the snapshot then has exactly those |
| UsageSnapshots.SnapshotsAreAccepted | extensions/flight-recorder/usage-collector.cjs:58-69 | every non-empty snapshot is sent, and the recorder accepts it if and only if no observation is dated before 1970 or after 9999 |
| UsageSnapshots.UndatableCallIsRefused | extensions/flight-recorder/usage-sources.cjs:164-177 | a log with one call dated before 1970 or after 9999 is read and sent, and the recorder refuses it |
| Collector.UsageCollection.Begin | extensions/flight-recorder/usage-collector.cjs:102-117 | a synchronisation is refused when closed and joined when one is in flight |
| Collector.UsageCollection.SendImport | extensions/flight-recorder/usage-collector.cjs:132-136 | an import is sent only while the collection is open |
| Collector.UsageCollection.Finish | extensions/flight-recorder/usage-collector.cjs:105-115 | an answer clears the error and lets a start schedule polling; a failure pauses it |
| Collector.UsageCollection.Close | extensions/flight-recorder/usage-collector.cjs:156-161 | stopping ends polling and closes the collection for good |
| Collector.RunIsSteady | extensions/flight-recorder/usage-collector.cjs:97-155 | polling is scheduled only while the collection is open and its last import succeeded |
| Collector.NothingIsSentAfterStop | extensions/flight-recorder/usage-collector.cjs:131-161 | after a stop nothing more is sent |
| Collector.FailurePausesPolling | extensions/flight-recorder/usage-collector.cjs:111-115 | after a failure nothing is polled or in flight until start is called again |
| Collector.OneImportAtATime | extensions/flight-recorder/usage-collector.cjs:102-117 | between two imports there is an answer or a failure |
| Collector.AcknowledgementsMatch | extensions/flight-recorder/usage-collector.cjs:135-140 | whenever the recorder acknowledges an import, the answer passes the client's checks |
| Collector.AcknowledgedSnapshotIsTheRun | extensions/flight-recorder/usage-collector.cjs:118-144 | after an acknowledged import the run totals exactly the snapshot that was read, whatever happened before |
| SdkCapture.StepKeepsSound | integrations/copilot-sdk/usage.mjs:295-337 | every step keeps the bounds on pending and seen events, one send a link in order, and no acceptance after a failure |
| SdkCapture.RequestsFollowAcceptance | integrations/copilot-sdk/usage.mjs:335 | in every run the k-th request is the one for the k-th accepted event |
| SdkCapture.RequestsDoNotOverlap | integrations/copilot-sdk/usage.mjs:335 | a request is made only when every earlier one has settled |
| SdkCapture.AcceptedOnlyGrows | integrations/copilot-sdk/usage.mjs:310-337 | nothing accepted is dropped, and nothing is accepted after a failure or a stop |
| SdkCapture.QueueDrains | integrations/copilot-sdk/usage.mjs:335 | from any reachable state the queue can be worked off, settling every accepted event |
| SdkCapture.FlushIsHonest | integrations/copilot-sdk/usage.mjs:348-356 | in every run with a flush called at any point, a flush that has resolved did so at a moment when everything accepted until then, before and after the call, had been acknowledged |
| SdkCapture.FlushRejectsAfterFailure | integrations/copilot-sdk/usage.mjs:355 | a flush rejects only when something has failed |
| SdkCapture.UsageCapture.OnUsageEvent | integrations/copilot-sdk/usage.mjs:322-337 | the handler accepts, ignores or fails in the order of its checks |
| SdkCapture.UsageCapture.Send | integrations/copilot-sdk/usage.mjs:335 | the next request carries the payload of the next accepted event |
| SdkCapture.UsageCapture.Answer | integrations/copilot-sdk/usage.mjs:318-335 | a refused request is a failure and ends the capture |
| SdkCapture.UsageCapture.Finally | integrations/copilot-sdk/usage.mjs:335 | a settled link is no longer pending |
| BadgeFrames.FrameIsNeverTooBig | scripts/lib/badge-protocol.mjs:13-28 | when numbers print in at most 25 printable characters the 1024-byte check never refuses a summary |
| BadgeFrames.PrintedFramesDecode | integrations/badger2040/flight_badge.py:25-51 | a printed frame decodes to the summary it was made of, with an empty alert as none |
| BadgeReading.FramesAreDecodable | scripts/lib/badge-protocol.mjs:13-28 | two frames that print alike are one frame, whatever quotes, commas and braces their texts hold |
| BadgeReading.AReaderExists | integrations/badger2040/flight_badge.py:25-51 | for every plain and unambiguous way of printing numbers some parser reads every frame back, so the premises on the link can hold |
| BadgeFrames.UuidsAreRunIds | integrations/badger2040/flight_badge.py:36-40 | every run id the sender lets through passes the device's own check |
| BadgeFrames.FrameBuffer.FeedCharacter | integrations/badger2040/flight_badge.py:54-76 | one character updates the buffer, and a newline yields the outcome of the line |
| BadgeFrames.StreamIsItsSegments | integrations/badger2040/flight_badge.py:54-76 | feeding any stream is splitting it at newlines: each segment has the outcome it would have alone, after errors too |
| BadgeFrames.FramesArriveWhole | integrations/badger2040/flight_badge.py:54-76 | every frame the sender prints is shown as its summary |
| BadgeFrames.BadgeRelay.Send | scripts/lib/badge-protocol.mjs:36-43 | a frame is written unless it is the last one written, and a failed write is tried again |
| BadgeFrames.DeviceShowsTheLatest | scripts/lib/badge-protocol.mjs:30-44 | whatever is sent in turn and whichever writes fail, the device shows the last summary that was written or was a repetition of what it shows |
| TaskUsage.ShowTaskUsage | src/FlightRecorder.Api/Tools/FlightRecorderMcpTools.cs:226-258 | one item a mentioned task, most credits first and by name among equals |
| TaskUsage.GroupsAreByTask | src/FlightRecorder.Api/Tools/FlightRecorderMcpTools.cs:231 | each attributed event is in the group of its task and in no other |
| TaskUsage.GroupsConserve | src/FlightRecorder.Api/Tools/FlightRecorderMcpTools.cs:231-250 | the group totals come to the total of the attributed events |
| TaskUsage.BreakdownConserves | src/FlightRecorder.Api/Tools/FlightRecorderMcpTools.cs:226-258 | so do the totals of the items shown, in whatever order |
| Totals.TotalIsSum | src/FlightRecorder.Api/Models/FlightEvent.cs:135-148 | a total is the sum of the values that are reported |
| Text.BeforeIsOrdinal | src/FlightRecorder.Api/Services/FlightRecorderService.UsageImports.cs:19 | ordinal order: the first difference decides, and a text comes before its continuations |
| RecordedContents.RulesAreExact | src/FlightRecorder.Api/Models/Requests.cs:20-77 | a request is valid exactly when its name is not blank, its times are from 1970 on and in order, its counters are counts, a cost comes with model, tokens and basis, and a parent task with a task |
| RecordedContents.ProtectedAreKept | src/FlightRecorder.Api/Services/FlightRecorderService.cs:143-155 | each name kept is that of the last entry so named that the mode allows, with its value redacted, replaced or as sent; and every allowed entry has its name kept |
| RecordedContents.RequestIsRecordedExactly | src/FlightRecorder.Api/Services/FlightRecorderService.cs:56-90 | a request is refused by the first rule it breaks, answered with the first event of its span, or recorded as an event that keeps each of its fields as the mode says: contents redacted in a redacted run |
| RecordedContents.BatchesAreRecorded | src/FlightRecorder.Api/Services/FlightRecorderService.cs:51-94 | an accepted batch is answered request by request and adds nothing but events that record its requests |
| RecordedContents.BatchIsRefusedAt | src/FlightRecorder.Api/Services/FlightRecorderService.cs:51-94 | a batch is refused with the reason of its first request that is refused |
| RecordedContents.BatchIsStored | src/FlightRecorder.Api/Services/FlightRecorderService.cs:51-94 | an accepted batch is stored behind the run's events and answered; a refused one changes nothing |
| RecordedContents.StartIsStored | src/FlightRecorder.Api/Services/FlightRecorderService.cs:27-36 | a start is refused exactly when one of its texts is blank; otherwise a run that says what it said, as the mode keeps it, is stored under a fresh id |
| RecordedContents.ContentsAreProtected | src/FlightRecorder.Api/Services/FlightRecorderService.cs:133-155 | after any history every content text of a redacted run, its request included, is a result of redaction, and a metadata-only run holds none |
| ImportOutcomes.ObservationIsHeld | src/FlightRecorder.Api/Services/FlightRecorderService.UsageImports.cs:46-63 | after an accepted import each observation of the request is held by exactly one event, with its counters, quality, model and time under the import's source |
| ImportOutcomes.RestIsKept | src/FlightRecorder.Api/Services/FlightRecorderService.UsageImports.cs:64-82 | what the request no longer mentions counts as nothing in its place, every other event stays as it was, and the run names the import as its current one |
| ImportOutcomes.OnlyMentionedIsAdded | src/FlightRecorder.Api/Services/FlightRecorderService.UsageImports.cs:55-61 | only observations of the request are added, behind the events that were there |
| ImportOutcomes.AcceptedImportIsHeld | src/FlightRecorder.Api/Services/FlightRecorderService.UsageImports.cs:10-85 | so it is at the end of any history that an accepted import ends |
| StoredRuns.RowsAreReadExactly | src/FlightRecorder.Api/Services/SqliteTraceRunStore.cs:152-231 | a row is read if and only if its columns are its run's, ids are new and parents earlier, counters are not negative, and one import at most is borne out by every imported event |
| StoredRuns.RowsAreReadAs | src/FlightRecorder.Api/Services/SqliteTraceRunStore.cs:176-187 | reading changes nothing but a missing list of imports and the zeros of events without a schema version, which become unknown |
| StoredRuns.ReadingIsStable | src/FlightRecorder.Api/Services/SqliteTraceRunStore.cs:152-188 | what has been read once and written back reads the same for ever |
| StoredRuns.RetainedExactly | src/FlightRecorder.Api/Services/InMemoryTraceRunStore.cs:50-58 | pruning keeps a run exactly when it is unfinished or fewer runs than the limit ended later, or as late and started later, or as both with a lower id |
| StoredRuns.CompletionDrops | src/FlightRecorder.Api/Services/FlightRecorderService.cs:96-100 | completing sets the end of a stored run and drops exactly the completed runs that as many as the limit outrank; an unknown run is not found |
| StoredRuns.OnlyCompletionDrops | src/FlightRecorder.Api/Services/InMemoryTraceRunStore.cs:36-48 | no other operation drops a run, and each leaves every other run as it was |
| StoredRuns.ImportRulesAreExact | src/FlightRecorder.Api/Models/UsageImport.cs:56-101 | the validation accepts exactly the requests that follow the rules, written out field by field |
| StoredRuns.BrokenRulesAreRefused | src/FlightRecorder.Api/Services/FlightRecorderService.UsageImports.cs:10-12 | an import that breaks a rule is refused whatever the run, and changes nothing |
| OperationLock.HeldLockChanges | extensions/flight-recorder/local-recorder.cjs:295-313 | a held lock changes only by its holder's release, or by a recovery on the owner's host of a record that was at least 30 seconds old and found dead |
| OperationLock.BusyGivesUp | extensions/flight-recorder/local-recorder.cjs:295-301 | an operation that finds an owner on another host, younger than 30 seconds or alive gives up for good |
| OperationLock.TwoAttempts | extensions/flight-recorder/local-recorder.cjs:288 | an operation tries to take the lock twice at most |
| OperationLock.EitherAttemptRecovers | extensions/flight-recorder/local-recorder.cjs:288-306 | at either attempt a dead owner's lock can be moved aside; after the first the operation tries again, after the second it gives up |
| TraceCompare.MatchedRowTells | src/FlightRecorder.Api/Services/TraceViewService.cs:34-39 | the row of two matched events is Unchanged exactly when they agree in all 25 compared properties, Changed otherwise, and lists exactly the names of those they differ in |
| TraceMatching.MatchedExactly | src/FlightRecorder.Api/Services/TraceViewService.cs:59-75 | two events are paired if and only if they agree in kind, agent and name, their parents are paired, and each has as many earlier siblings like it |
| TraceMatching.KeyIs | src/FlightRecorder.Api/Services/TraceViewService.cs:66-72 | a key is the parent's key, a JSON list of kind, agent and name, and the number of earlier siblings that are alike |
| TraceMatching.RowsAreInOrder | src/FlightRecorder.Api/Services/TraceViewService.cs:32-40 | the rows of the baseline's events come first, in their order, and then those of the candidate's events without a counterpart, in theirs |
| DeltaRecords.SegmentNames | extensions/flight-recorder/usage-sources.cjs:262-265 | a text names itself and a number its decimal text; indices are exactly the decimal texts of naturals |
| DeltaRecords.OwnElement | extensions/flight-recorder/usage-sources.cjs:262-273 | the own properties of an array are the decimal texts of its indices and no others |
| DeltaRecords.PutAtExactly | extensions/flight-recorder/usage-sources.cjs:262-306 | a path can be written to if and only if every segment on it leads on, and an append ends at an array with room or at nothing |
| DeltaRecords.SetIsApplied | extensions/flight-recorder/usage-sources.cjs:287-298 | a record of kind 1 is applied exactly when its path can be followed; "k" then leads to "v", the containers on the way keep their kind and every parting path its value |
| DeltaRecords.AppendIsApplied | extensions/flight-recorder/usage-sources.cjs:287-304 | a record of kind 2 is applied exactly when, besides, there is an array or nothing there and the additions fit; "k" then leads to what was there with "v" behind it |
| DeltaRecords.AppliedExactly | extensions/flight-recorder/usage-sources.cjs:280-306 | a record is applied exactly when it restarts with an object, or sets or appends as above |
| DeltaRecords.LogIsItsLastRecord | extensions/flight-recorder/usage-sources.cjs:275-310 | a log is accepted exactly when it restarts, or is one applicable record longer than an accepted one; its state is what that record makes of the state before |
| ReadContents.CallContents | extensions/flight-recorder/usage-sources.cjs:332-339 | a call's counters, model, time and id are those of the record's own properties, and it is billed for a CLI session only |
| ReadContents.ShutdownContents | extensions/flight-recorder/usage-sources.cjs:367-385 | a shutdown gives one observation for each model it lists, and behind them the billed amount of a CLI session |
| ReadContents.RequestsContents | extensions/flight-recorder/usage-sources.cjs:387-395 | each request gives the tokens its replies report, or an estimate of what is visible when none does |
| ReadContents.LogContents | extensions/flight-recorder/usage-sources.cjs:320-396 | all calls when any call has a token counter, or else the last shutdown, or else the calls, or else the requests, each as its records say |
| ReadContents.ChatContents | extensions/flight-recorder/usage-sources.cjs:206-260 | a chat request's counters are what the places agree on, and its estimates a quarter of the characters its message and response show |
| ReadContents.StateContents | extensions/flight-recorder/usage-sources.cjs:244-260 | a chat state gives one such observation for each entry of its requests, or of its history |
| ReadContents.RowContents | extensions/flight-recorder/usage-sources.cjs:502-511 | a keyed row gives its own columns under its key |
| ReadContents.ModelTotalContents | extensions/flight-recorder/usage-sources.cjs:512-538 | a model without keyed rows gives for each column the sum over its rows when all of them report it, and nothing otherwise |
| ReadContents.ModelsAre | extensions/flight-recorder/usage-sources.cjs:513-525 | each model of the rows is listed once |
| ReadContents.SourceContents | extensions/flight-recorder/usage-sources.cjs:540-573 | whatever is read from a source is what its records say, by the form the source has |
| SdkDelivery.UsageIsAccountedFor | integrations/copilot-sdk/usage.mjs:322-337 | a usage event met while active is ignored exactly when it repeats an accepted one, fails the capture exactly when it has no id or cannot be queued, and is accepted otherwise |
| SdkDelivery.NothingFreshIsLost | integrations/copilot-sdk/usage.mjs:322-356 | when a flush resolves, every usage event handed over until then had an accepted and acknowledged event of its id or call |
| SdkDelivery.NothingAfterDetach | integrations/copilot-sdk/usage.mjs:357-360 | nothing is accepted once the adapter was detached |
| SdkDelivery.AcknowledgedWasAnswered | integrations/copilot-sdk/usage.mjs:335 | an event counts as acknowledged only by an answer to its own request |
| SdkDelivery.RefusalFails | integrations/copilot-sdk/usage.mjs:301-321 | a request that is not acknowledged, or an observer that fails, adds a failure and leaves the capture ended |
| BadgeReading.ObjectsAreDecodable | scripts/lib/badge-protocol.mjs:13-28 | two flat objects that print alike are one object: every name and value can be told from the text |
| BadgeContents.SummaryIsFramedExactly | scripts/lib/badge-protocol.mjs:4-28 | a summary is framed as f if and only if f says what its properties do; any other summary is refused |
| BadgeContents.LineIsShownExactly | integrations/badger2040/flight_badge.py:9-51 | a line is shown as f if and only if it is at most 1024 characters of an object that says so |
| BadgeContents.RunIdsAreUuids | integrations/badger2040/flight_badge.py:36-40 | the sender's pattern and the device's split accept the same run ids |
| TaskItems.BreakdownIsOfTheEvents | src/FlightRecorder.Api/Tools/FlightRecorderMcpTools.cs:231-252 | one item for each mentioned task and no other, named after its first start or first mention, with the counts, totals and duration of its events |
| TaskItems.BreakdownIsOrdered | src/FlightRecorder.Api/Tools/FlightRecorderMcpTools.cs:254-255 | items come with most reported, or else estimated, credits first, and by name among equals |

## Left out

- The HTTP controllers, MCP plumbing, OTLP forwarding, web viewer, panels and dialogs are input, output and user interface.
- Docker commands, readiness probing, bundle staging and process spawning in `local-recorder.cjs` are foreign calls; only `_locked` is modelled.
- `ListRuns`, `Graph`, `Metrics`, `UsageCoverage`, `Analyze` and exports are projections without state and would add easy members only.
- Regular-expression redaction, SHA-256, GUID creation and clocks are parameters under the premises named above.
- Texts are sequences of Unicode scalar values: lone surrogates cannot be written, and length limits of the recorder count scalar values, not UTF-16 code units. The reader's character counts do count code units.
- Undefined enum values, null list items and null required texts in stored JSON cannot be represented, so the reader's refusal of them is not modelled; JSON serialisation of whole runs is taken as faithful.
- Token sums are unbounded, so an overflow of a 64-bit sum, and decimal rounding or overflow in costs and credits, are not modelled. Nano-AIU are converted to credits exactly, in units of 1e-28.
- Metering.TotalsAreTheLastSnapshots: covers the input, output, estimated, cache and nano-AIU totals, and so not reported AI credits, which recorded events may carry beside an import.
- SQLite is a map of rows: transactions are atomic, and journaling, locking and schema upgrades are not modelled.
- Both stores run their updates one at a time under a lock or a transaction, so a history is a sequence of operations.
- FlightRecorder.FlightRecorderService is written over the in-memory store; `Service.StoresSimulateEachOther` carries its replies and runs over to SQLite.
- Sorting by LINQ is the stable insertion sort of a list; the order of equal keys is kept, as in the source.
- OperationLock models renames, unlinks and reads as atomic steps and the candidate directory as private; other programs do not write into the storage directory. Liveness is an oracle that never reports a live process of the tester's own host dead; of other hosts it knows nothing.
- OperationLock is a step relation and not a method, because its subject is the interleaving of operations.
- DeltaLog.PutAt: walks a path by recursion on values, where the source moves a pointer through the tree it updates in place; each record's value is used once, so no part of the tree is shared.
- JSON objects list their properties in order of insertion; the order JavaScript gives integer-like names shows in no modelled result.
- Numbers in records are safe integers or opaque texts; warnings, which are messages only, are not modelled, and the revision is a function of the observations.
- File access, path checks, size limits on files, splitting text into lines, and discovery of sources depend on the environment.
- Timestamps in records are read by a parameter; only the range check on milliseconds is modelled. That a timestamp after 9999 is refused is a bound of the DateTimeOffset type, put into `UsageImports.ValidObservation` beside the check for the epoch.
- SdkCapture leaves out payloads, prices, timeouts and transports: a request is acknowledged or not. An `onError` callback is always present, and subscribing has succeeded.
- SdkCapture.FlushIsHonest: says when a flush may resolve; that it ends needs the requests to settle, which `SdkCapture.QueueDrains` shows possible.
- Collector models the client's own variables and what an acknowledgement means; HTTP errors, response size limits and the consent dialogs are not modelled.
- Metrics on the badge are real numbers out of a finite set, printed in at most 25 characters; the device's floating-point width and its drawing code are not modelled.
- Badge metrics that are not whole have no printing of their own in `BadgeReading.PremisesCanHold`, which shows the premises consistent on whole numbers.
- The serial link and its reconnects are not part of this model; a write succeeds whole or fails.
