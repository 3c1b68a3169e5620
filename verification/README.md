# Verified model of the AIOps triage pipeline's durable core

A Dafny 4.11 model of the stateful parts of the triage pipeline, and proofs about all of their runs: the write-once
case store and the durable outbox, the ServiceNow linkage retry protocol and its idempotent upserts, the AG0-AG6
gate engine with its dedupe store and audit replay, sustained-anomaly streaks, the topology registry and its
resolver, the denylist sanitiser, and the retention purge. `dafny verify dfyconfig.toml` checks everything.

How the model is built:

- Code that changes state is a class or a method with loops (`OutboxSqlRepository`, `OutboxPublisherWorker`,
  `ObjectStoreClient`, `LinkageRetrySqlRepository`, `ServiceNowClient`, `EvaluationState`, `RedisActionDedupeStore`,
  the registry loops, the purge). Each method is proved equal to a specification function; the theorems are about
  those functions and about runs of them.
- Protocols (`OutboxProtocol`, `LinkageProtocol`, `ServiceNow.Exec`) are transition systems of any number of processes
  with crashes, lost replies and, for the outbox, arbitrary tampering with the bucket. The read and the guarded write
  of a row transition are separate steps, and so are the lookup and the write of a remote upsert; storing one case file
  (put and read-back) and inserting one row (guarded by the unique key) are single steps. A theorem about `Exec` is
  about every interleaving.
- Serialisation, SHA-256, digests used for jitter, regular-expression matching of denied values, `str.upper` and the
  remote systems are function parameters. Nothing assumes SHA-256 injective: the theorems say "identical, or here is
  a collision" and one corollary adds collision-freeness.
- Time is whole seconds (the purge uses calendar timestamps). Integers are unbounded as in Python.

Findings stated as theorems, where the code does less than one might expect, each with its exact condition:

- The denylist sanitiser does not descend into tuples (`Denylist.FieldsClean`, `Denylist.TupleIsNotDescended`).
- Ids with `^` are looked up without it, so they are duplicated and may overwrite another record
  (`ServiceNow.TwiceUniqueIff`, `ServiceNow.CaretUpsert`); ids upserted by two workers at once, or retried before a late
  POST arrives, are duplicated too (`ServiceNow.TwoWorkersDuplicate`, `ServiceNow.LateWriteDuplicates`).
- A stale outbox writer can lower the attempt count (`Outbox.IncrementIffSnapshotCurrent`).
- A LINKED row whose result was "skipped" is recovered as "linked" (`LinkageStage.RecoveryIsFaithfulIff`), and a
  FAILED_FINAL row loses the reason of its failure (`LinkageStage.FinalRecoveryIff`).
- Retry rows are keyed by the raw case id and linkage.json by the trimmed one, so ids that differ only in outer blanks
  share an artifact (`LinkageArtifacts.PerRowIff`).
- The window bounds the attempts of a case only while the clock does not step back
  (`LinkageCounting.WindowBoundNeedsSteadyClock`).
- With the shipped rulebook a higher proposal can end lower, because AG4 looks only at TICKET and above and then caps to
  OBSERVE, below the NOTIFY it leaves alone (`GateLaws.ShippedMonotoneIff`).
- A duplicate effect with an unknown cap action raises inside the dedupe guard and is treated as a store error
  (`StormControl.ReplayEquals` covers it).
- Topic names and default scopes with outer blanks are indexed but never seen (`Resolver.IndexedIsReachedIff`,
  `CompatView.V0RoundTripIff`).
- The retention cutoff can move back by up to a day at month ends (`Calendar.CutoffMonotoneIff`).
- Files of cases whose id contains a slash are never purged (`Retention.StoredKeyIsSeenIff`).

## Model

| member | source | states |
|---|---|---|
| `CaseStore.EqualHashesEqualFiles` | src/aiops_triage_pipeline/storage/casefile_io.py:405-415 | two hash-valid files of one stage with equal hashes are the same file, or their placeholder-hash bytes are a SHA-256 collision |
| `CaseStore.HashIgnoresItself` | src/aiops_triage_pipeline/storage/casefile_io.py:405-415 | a file's hash is taken over the file with 64 zeros in place of its own hash, so it does not depend on it |
| `CaseStore.KeyInjective` | src/aiops_triage_pipeline/storage/casefile_io.py:192-199 | no two (case, stage) pairs share an object key, whatever characters the case id holds |
| `CaseStore.ObjectStoreClient.Put` | src/aiops_triage_pipeline/storage/client.py:107-153 | create-only put: an existing object is never replaced, under refusal, lost reply or conflict |
| `CaseStore.ObjectStoreClient.Persist` | src/aiops_triage_pipeline/pipeline/stages/casefile.py:297-345 | one stage persist (own hash, dependency hashes, put, read-back) computes PersistStage on the bucket |
| `CaseStore.PersistCreatesConfirmsOrFails` | src/aiops_triage_pipeline/storage/casefile_io.py:418-459 | a persist creates its object, confirms identical bytes, or fails; a failure changes the bucket only when the put was applied and its reply lost |
| `CaseStore.RetryConverges` | src/aiops_triage_pipeline/storage/casefile_io.py:418-459 | after any fault the same persist succeeds on retry exactly when the key was free or already held these bytes |
| `CaseStore.WriteOnce` | src/aiops_triage_pipeline/storage/casefile_io.py:418-459 | over every run of stage persists the bytes at a key never change |
| `CaseStore.PersistKeepsChain` | src/aiops_triage_pipeline/pipeline/stages/casefile.py:399-492 | one stage persist keeps every stored file linked to the stored files it names |
| `CaseStore.HashChainFromEmpty` | src/aiops_triage_pipeline/pipeline/stages/casefile.py:399-492 | over every run from an empty bucket each diagnosis, linkage and labels file names the hash of the stored triage and, if it names one, of the stored diagnosis |
| `Backoff.DelayBounds` | src/aiops_triage_pipeline/outbox/state_machine.py:139-155 | for every digest the delay is in [1, max + max(1, floor(max*jitter))] and within the jitter window of the capped exponential, or 1 |
| `Backoff.EveryDelayOccurs` | src/aiops_triage_pipeline/outbox/state_machine.py:139-155 | every delay from the exponential minus the window to the exponential plus it occurs for some digest |
| `Backoff.JitterWindowIs` | src/aiops_triage_pipeline/outbox/state_machine.py:139-155 | the window is the truncated share of the exponential, at least one second |
| `Backoff.DefaultDelayGrowsExactlyUntilCap` | src/aiops_triage_pipeline/outbox/state_machine.py:139-155 | with the default parameters attempt n waits less than attempt n+1 for every pair of digests if and only if the exponential at n is below the cap |
| `Outbox.PlansFollowEdges` | src/aiops_triage_pipeline/outbox/repository.py:88-175 | whatever a transaction decides after its read moves only along PENDING_OBJECT, READY, RETRY, SENT, DEAD edges |
| `Outbox.TransitionsAreStamped` | src/aiops_triage_pipeline/outbox/state_machine.py:192-197 | every transition at `now` is stamped with `now`, or with the row's own time when the clock is behind it |
| `Outbox.TransitionsRecord` | src/aiops_triage_pipeline/outbox/state_machine.py:55-136 | which rows each transition accepts, and what it records: status, attempts, error, schedule; DEAD exactly when the attempts have reached the maximum |
| `Outbox.RepeatedTransitionsAreNoOps` | src/aiops_triage_pipeline/outbox/repository.py:88-175 | asking again for a state already reached changes nothing and succeeds |
| `Outbox.GuardedWriteEffect` | src/aiops_triage_pipeline/outbox/repository.py:348-385 | a losing guarded UPDATE changes nothing; a winning one keeps identity and follows an edge |
| `Outbox.IncrementIffSnapshotCurrent` | src/aiops_triage_pipeline/outbox/repository.py:140-175 | a committed failure adds one attempt if and only if the snapshot it was planned from was still current |
| `Outbox.StaleReaderLosesIncrements` | src/aiops_triage_pipeline/outbox/repository.py:140-175 | a stale writer can lower the stored attempt count |
| `Outbox.InsertIff` | src/aiops_triage_pipeline/outbox/repository.py:40-86 | an insert succeeds if and only if the case is new or its row names the same object and hash; a new row is PENDING_OBJECT |
| `Outbox.OutboxSqlRepository.InsertPendingObject` | src/aiops_triage_pipeline/outbox/repository.py:40-86 | insert, or return the existing row when path and hash agree, else raise |
| `Outbox.OutboxSqlRepository.Update` | src/aiops_triage_pipeline/outbox/repository.py:348-385 | the guarded UPDATE over the table |
| `Outbox.OutboxSqlRepository.TransitionToReady` | src/aiops_triage_pipeline/outbox/repository.py:88-112 | one transaction: read, decide, guarded write |
| `Outbox.OutboxSqlRepository.TransitionToSent` | src/aiops_triage_pipeline/outbox/repository.py:114-138 | one transaction: read, decide, guarded write |
| `Outbox.OutboxSqlRepository.TransitionPublishFailure` | src/aiops_triage_pipeline/outbox/repository.py:140-175 | one transaction: read, decide, guarded write |
| `Outbox.OutboxSqlRepository.SelectPublishable` | src/aiops_triage_pipeline/outbox/repository.py:177-208 | the oldest publishable rows up to the limit, each once, in updated_at order; nothing older is left out |
| `Publisher.Readback` | src/aiops_triage_pipeline/outbox/publisher.py:216-241 | a read-back succeeds only with the stored, hash-valid case file carrying the row's case_id and hash |
| `Publisher.PreparedSays` | src/aiops_triage_pipeline/outbox/publisher.py:148-181 | every header field, and every excerpt field before sanitising, is the field of that name in the case file read |
| `Publisher.FailureCodes` | src/aiops_triage_pipeline/outbox/worker.py:169-180 | only READY and RETRY rows are published, and the recorded code tells where a publish failed |
| `Publisher.DeliveryShows` | src/aiops_triage_pipeline/outbox/publisher.py:123-134 | both messages when the broker call returns; when it raises, the parts it had delivered |
| `Publisher.SameHashSameMessage` | src/aiops_triage_pipeline/outbox/publisher.py:99-145 | two messages built from case files with one hash are identical, or the files collide under SHA-256 |
| `OutboxWorker.SerialRunsCount` | src/aiops_triage_pipeline/outbox/state_machine.py:96-136 | under serial transactions every run keeps RETRY at 1..max attempts and DEAD at exactly max(max,0)+1, and counts each recorded attempt once |
| `OutboxWorker.SettlesWithinBudget` | src/aiops_triage_pipeline/outbox/state_machine.py:96-136 | a row records at most max(max,0)+1 attempts and is SENT or DEAD when it has recorded that many |
| `OutboxWorker.NoEarlyRetry` | src/aiops_triage_pipeline/outbox/repository.py:177-204 | no RETRY row is offered before its backoff, at least one second, has elapsed |
| `OutboxWorker.FailureDelaysRetry` | src/aiops_triage_pipeline/outbox/state_machine.py:121-136 | after any serial run, a failure recorded at `at` that leaves the row in RETRY keeps it unpublishable until `at` plus its jittered delay |
| `OutboxWorker.OutboxPublisherWorker.PublishOne` | src/aiops_triage_pipeline/outbox/worker.py:128-185 | publish one selected row and record SENT, or RETRY or DEAD with the code of the exception raised |
| `OutboxWorker.OutboxPublisherWorker.PublishAll` | src/aiops_triage_pipeline/outbox/worker.py:128-185 | the loop leaves the table and the delivery log that taking the rows one after the other gives, up to the first that raises |
| `OutboxWorker.AfterAccounts` | src/aiops_triage_pipeline/outbox/worker.py:128-185 | taking distinct rows one after the other leaves each in its outcome and every other row as it was |
| `OutboxWorker.OutboxPublisherWorker.RunOnce` | src/aiops_triage_pipeline/outbox/worker.py:116-190 | over the bucket as it stands: a normal return has scanned = sent + failed with sent the number of successes, every selected row in its outcome and all others untouched; the broker got exactly what the reached rows read back; it raises exactly when a failed publish meets an unconfigured environment |
| `OutboxWorker.DeliveredFromBucket` | src/aiops_triage_pipeline/outbox/publisher.py:99-145 | a delivered pair of an iteration is genuine and its case file is in the bucket under the path of a row with its case_id and hash |
| `OutboxProtocol.StepKeeps` | src/aiops_triage_pipeline/outbox/repository.py:348-385 | every step of every writer and worker keeps the protocol invariant, with lost database replies and half-delivered pairs |
| `OutboxProtocol.InvariantA` | src/aiops_triage_pipeline/outbox/publisher.py:99-145 | over every interleaving with crashes, lost replies, half-delivered pairs and a tampered bucket, each published message was rendered from bytes stored at that moment under the path of the row as it is now, which validate as a case file with the row's case_id and hash; its fields are that file's fields of the same name; a SENT row had both messages delivered |
| `OutboxProtocol.AllWereStored` | src/aiops_triage_pipeline/outbox/publisher.py:216-241 | for each message there is a moment of the run whose bucket, read for a row of the same identity, gives exactly that message |
| `OutboxProtocol.DuplicatesAreIdentical` | src/aiops_triage_pipeline/outbox/publisher.py:99-145 | any two publications of one case are the same message, or the run exhibits a SHA-256 collision |
| `OutboxProtocol.CollisionFreeDuplicates` | src/aiops_triage_pipeline/outbox/publisher.py:99-145 | with a collision-free hash all publications of one case are identical |
| `OutboxProtocol.RowsPersist` | src/aiops_triage_pipeline/outbox/repository.py:348-385 | case_id, path, hash and creation time never change; SENT and DEAD rows are frozen |
| `OutboxProtocol.StatusHistory` | src/aiops_triage_pipeline/outbox/repository.py:88-175 | under full interleaving each status history is PENDING_OBJECT, READY, RETRY*, then SENT or DEAD, or a prefix of that |
| `OutboxProtocol.DurableFromStart` | src/aiops_triage_pipeline/pipeline/stages/casefile.py:230-294 | while only the writers touch the bucket, every outbox row reads back as a valid triage file for its case |
| `OutboxProtocol.UninterruptedTransition` | src/aiops_triage_pipeline/outbox/repository.py:348-385 | beginning and committing with nobody in between is the repository's transaction |
| `OutboxProtocol.ConfirmedBecomesReady` | src/aiops_triage_pipeline/pipeline/stages/casefile.py:230-294 | a writer alone brings a confirmed case to READY, publishable at once |
| `OutboxProtocol.PublishableBecomesSent` | src/aiops_triage_pipeline/outbox/worker.py:128-140 | a worker alone whose file reads and whose broker call returns delivers the pair and leaves the row SENT |
| `OutboxProtocol.SentOrRecordedAsFailure` | src/aiops_triage_pipeline/outbox/worker.py:137-180 | after a delivered pair a row that cannot become SENT, or a commit whose reply is lost, is recorded as a failure |
| `Linkage.ContractRulesPositive` | src/aiops_triage_pipeline/linkage/state_machine.py:133-191 | the contract's delays are at least one second for every digest |
| `Linkage.SearchingScheduled` | src/aiops_triage_pipeline/linkage/state_machine.py:50-65 | entering SEARCHING keeps the schedule and identity |
| `Linkage.SearchingPaced` | src/aiops_triage_pipeline/linkage/state_machine.py:50-65 | entering SEARCHING keeps one second of the window spent per attempt while the clock has not stepped back |
| `Linkage.SuccessScheduled` | src/aiops_triage_pipeline/linkage/state_machine.py:68-94 | success ends LINKED with one more attempt and no next attempt |
| `Linkage.FailureScheduled` | src/aiops_triage_pipeline/linkage/state_machine.py:97-191 | a failure is final, or transient and rescheduled strictly later and not past the deadline |
| `Linkage.RescheduledExactlyWithinDeadline` | src/aiops_triage_pipeline/linkage/state_machine.py:133-191 | a transient failure is rescheduled exactly when its wait, the larger of backoff and bounded Retry-After, ends by the deadline, and then for exactly that second |
| `Linkage.FailureRecords` | src/aiops_triage_pipeline/linkage/state_machine.py:97-191 | what the row says about a failure, and that the code becomes retry_window_exhausted only when the window ran out |
| `Linkage.SuccessRecords` | src/aiops_triage_pipeline/linkage/state_machine.py:68-94 | success keeps the request, metadata and incident of the answer and no error |
| `Linkage.DueIff` | src/aiops_triage_pipeline/linkage/state_machine.py:42-47 | when a row is due |
| `Linkage.PersistIff` | src/aiops_triage_pipeline/linkage/repository.py:72-112 | when a guarded write goes through, is accepted without writing, or raises |
| `Linkage.GetOrCreateEffect` | src/aiops_triage_pipeline/linkage/repository.py:32-70 | returns the stored row, or creates one PENDING row, or changes nothing |
| `Linkage.LinkageRetrySqlRepository.GetOrCreatePending` | src/aiops_triage_pipeline/linkage/repository.py:32-70 | the insert-or-read over the table |
| `Linkage.LinkageRetrySqlRepository.Persist` | src/aiops_triage_pipeline/linkage/repository.py:72-112 | the guarded UPDATE over the table |
| `LinkageProtocol.RunKeeps` | src/aiops_triage_pipeline/pipeline/stages/linkage.py:134-337 | over every interleaving of reads, guarded writes, lost replies and crashes, LINKED and FAILED_FINAL rows are never left or rewritten and identity, first attempt and deadline never change |
| `LinkageProtocol.LinkageSafety` | src/aiops_triage_pipeline/linkage/state_machine.py:97-191 | every reachable row has a next attempt exactly in FAILED_TEMP and never past its deadline; where linkage.json exists, some row whose case id trims to the directory name is terminal |
| `LinkageArtifacts.PerRowIff` | src/aiops_triage_pipeline/storage/casefile_io.py:192-199 | linkage.json exists only if the row itself is terminal, over every run on a set of case ids, if and only if no two of them trim to the same text |
| `LinkageArtifacts.TwoRowsShareOneObject` | src/aiops_triage_pipeline/linkage/repository.py:32-70 | any two ids that trim to one text: a run links the first, and the second, never tried, already has a linkage.json |
| `LinkageArtifacts.TrailingBlankCollides` | src/aiops_triage_pipeline/storage/casefile_io.py:192-199 | "a" and "a " are such a pair |
| `LinkageCounting.OwnedRunsCount` | src/aiops_triage_pipeline/linkage/repository.py:72-112 | with one worker per case the stored count is the number of recorded attempts, whatever the crashes and lost replies |
| `LinkageCounting.StoredCountBounded` | src/aiops_triage_pipeline/linkage/state_machine.py:133-191 | under full interleaving with such a clock every stored count stays within 60 * retry_window_minutes + 1 |
| `LinkageCounting.AttemptsBoundedByWindow` | src/aiops_triage_pipeline/linkage/state_machine.py:133-191 | a case with one worker and a clock that does not step back between the due check and SEARCHING records at most 60 * retry_window_minutes + 1 attempts |
| `LinkageCounting.WindowBoundNeedsSteadyClock` | src/aiops_triage_pipeline/linkage/state_machine.py:201-206 | if the clock may step back there, one worker can record any number of attempts in a one-minute window |
| `LinkageStage.MetadataRoundTrip` | src/aiops_triage_pipeline/pipeline/stages/linkage.py:401-445 | problem and task identifiers survive the trip through the row's metadata |
| `LinkageStage.RecoveryIsFaithfulIff` | src/aiops_triage_pipeline/pipeline/stages/linkage.py:420-445 | the file rebuilt from a LINKED row equals the lost one if and only if the result was "linked" with a trimmed non-empty reason and the row knew no other incident |
| `LinkageStage.SkippedIsNotRecovered` | src/aiops_triage_pipeline/pipeline/stages/linkage.py:431-433 | a "skipped" result is always rebuilt as a different file |
| `LinkageStage.RecoveredSays` | src/aiops_triage_pipeline/pipeline/stages/linkage.py:420-461 | status, reason, request, incident and problem of a recovered result, for LINKED and FAILED_FINAL rows, in terms of the metadata |
| `LinkageStage.RecoveredTasks` | src/aiops_triage_pipeline/pipeline/stages/linkage.py:600-610 | the recovered task lists are the non-blank stored entries in order, or one trimmed text |
| `LinkageStage.FailedFinalIsNotRecoveredAsLinked` | src/aiops_triage_pipeline/pipeline/stages/linkage.py:162-181 | a call on a FAILED_FINAL row with a free key leaves the rows alone and stores the status the metadata says, else "failed"; "linked" only if the metadata says so |
| `LinkageStage.FinalRecoveryIff` | src/aiops_triage_pipeline/pipeline/stages/linkage.py:447-461 | a FAILED_FINAL row whose metadata tells nothing is rebuilt as the lost file if and only if that said "failed", "failed_final_terminal", no problem, no task and the same incident |
| `LinkageStage.BuiltSays` | src/aiops_triage_pipeline/pipeline/stages/linkage.py:350-365 | linkage.json field by field, with a valid hash |
| `LinkageStage.SettledSays` | src/aiops_triage_pipeline/pipeline/stages/linkage.py:216-284 | linked and skipped answers end LINKED with their request, incident and identifiers; others as the failure they are classified as |
| `LinkageStage.PersistTerminalLinkageStage` | src/aiops_triage_pipeline/pipeline/stages/linkage.py:340-370 | builds, hashes and persists linkage.json |
| `LinkageStage.EnsureTerminalLinkageStage` | src/aiops_triage_pipeline/pipeline/stages/linkage.py:373-398 | reads linkage.json, or persists it when absent |
| `LinkageStage.ExecuteServiceNowLinkageAndPersist` | src/aiops_triage_pipeline/pipeline/stages/linkage.py:134-337 | one call over the row store and the object store computes Execute |
| `LinkageStage.NotDueDoesNothing` | src/aiops_triage_pipeline/pipeline/stages/linkage.py:182-195 | a call on a row that is not due changes nothing |
| `LinkageStage.ExistingArtifactIsReturned` | src/aiops_triage_pipeline/pipeline/stages/linkage.py:383-389 | a call on a terminal row with a readable linkage.json returns it and changes nothing |
| `LinkageStage.BucketChangesOnlyWhenTerminal` | src/aiops_triage_pipeline/pipeline/stages/linkage.py:286-337 | the bucket changes only when the call leaves the row terminal |
| `LinkageStage.CrashRecoveryIff` | src/aiops_triage_pipeline/pipeline/stages/linkage.py:142-257 | after a crash between the LINKED row and linkage.json, the next call finishes and leaves exactly the rows, objects and hash of the uninterrupted call if and only if the result was recoverable |
| `ServiceNow.EscapeIdentityIff` | src/aiops_triage_pipeline/integrations/servicenow.py:1273-1274 | escaping leaves an id alone if and only if it has no '^' |
| `ServiceNow.LookupIsExact` | src/aiops_triage_pipeline/integrations/servicenow.py:727-777 | with unique keys and no '^' the lookup says exactly whether the record exists |
| `ServiceNow.UpsertKeepsUnique` | src/aiops_triage_pipeline/integrations/servicenow.py:718-883 | one attempt, whatever is lost, keeps keys unique, moves nothing else, and a success names a record with the wanted key and problem |
| `ServiceNow.UpsertFailsIff` | src/aiops_triage_pipeline/integrations/servicenow.py:718-883 | exactly when a LIVE upsert fails, creates or updates |
| `ServiceNow.SeveralAreAnError` | src/aiops_triage_pipeline/integrations/servicenow.py:1091-1110 | two records with the looked-up key are an error |
| `ServiceNow.RetryConverges` | src/aiops_triage_pipeline/integrations/servicenow.py:779-883 | after any fault a clean retry succeeds and leaves exactly one record with the key |
| `ServiceNow.CaretDuplicatesIff` | src/aiops_triage_pipeline/integrations/servicenow.py:727-731 | two clean upserts of one id on an empty remote leave two records if and only if the id contains '^', else one |
| `ServiceNow.TwiceUniqueIff` | src/aiops_triage_pipeline/integrations/servicenow.py:727-883 | on every remote with unique keys, two clean upserts of one id keep keys unique if and only if it has no '^' |
| `ServiceNow.CaretUpsert` | src/aiops_triage_pipeline/integrations/servicenow.py:727-883 | an id with '^' looks up another key: the upsert adds a record, or overwrites the record of that other key, of which none is left |
| `ServiceNow.RunKeepsUnique` | src/aiops_triage_pipeline/integrations/servicenow.py:727-883 | any interleaving of lookups, writes, lost replies, late POSTs and crashes with one worker per key leaves at most one record per (table, external_id), as long as no key is looked up while a POST for it is on its way |
| `ServiceNow.TwoWorkersDuplicate` | src/aiops_triage_pipeline/integrations/servicenow.py:727-839 | two workers that both look up first create two records |
| `ServiceNow.LateWriteDuplicates` | src/aiops_triage_pipeline/integrations/servicenow.py:779-803 | a timed-out POST applied after the retry's lookup creates a second record |
| `ServiceNow.ExternalIdCaretIff` | src/aiops_triage_pipeline/integrations/servicenow.py:1069-1089 | an external id contains '^' exactly when a part the caller gave does |
| `ServiceNow.ExternalIdNames` | src/aiops_triage_pipeline/integrations/servicenow.py:1069-1089 | an id starts with its kind and the trimmed case and incident ids in that order, and a task's ends with its trimmed type |
| `ServiceNow.SameProblemSameCase` | src/aiops_triage_pipeline/integrations/servicenow.py:1083-1089 | two problems with one external id belong to the same trimmed case and incident, or their digests collide |
| `ServiceNow.SameTaskSameCase` | src/aiops_triage_pipeline/integrations/servicenow.py:1083-1089 | the same for two tasks of one type |
| `ServiceNow.ProblemIsNotTask` | src/aiops_triage_pipeline/integrations/servicenow.py:187-208 | a problem and a task never share an external id |
| `ServiceNow.DedupePreserveOrder` | src/aiops_triage_pipeline/integrations/servicenow.py:1276-1285 | distinct non-empty items in order of first appearance |
| `ServiceNow.DedupeKeepsOrder` | src/aiops_triage_pipeline/integrations/servicenow.py:1276-1285 | the items kept are in the order of their first appearance |
| `ServiceNow.ServiceNowClient.UpsertRecordStep` | src/aiops_triage_pipeline/integrations/servicenow.py:655-883 | OFF and LOG touch nothing; MOCK gives each key one sys_id for good and leaves the remote alone; LIVE on a '^'-free id keeps keys unique whatever is lost, and a success names a record with the wanted key and problem |
| `ServiceNow.ServiceNowClient.Lookup` | src/aiops_triage_pipeline/integrations/servicenow.py:727-777 | the record's position, none, or an error for several |
| `ServiceNow.ServiceNowClient.UpsertLiveRecord` | src/aiops_triage_pipeline/integrations/servicenow.py:718-883 | lookup, then create or update of the remote table, under every fault |
| `ServiceNow.ServiceNowClient.UpsertProblemAndPirTasks` | src/aiops_triage_pipeline/integrations/servicenow.py:318-440 | the problem and the task loop compute UpsertAll over the remote and mock tables |
| `ServiceNow.LinkedMeansRecorded` | src/aiops_triage_pipeline/integrations/servicenow.py:318-432 | keys stay unique, and "linked" in LIVE mode means the problem is in the problem table, each distinct task type has a record in the task table pointing at it, and the result names those records and their external ids in order |
| `ServiceNow.NothingSent` | src/aiops_triage_pipeline/integrations/servicenow.py:330-373 | when nothing is sent at all, and what the answer then says |
| `ServiceNow.CallsKeepUnique` | src/aiops_triage_pipeline/integrations/servicenow.py:318-440 | any sequence of linkage attempts with lost replies leaves at most one remote record per external id |
| `GateLaws.StepIsCap` | src/aiops_triage_pipeline/pipeline/stages/gating.py:86-201 | each gate acts on the action as a cap, and only AG1 touches env_cap_applied |
| `GateLaws.FoldIsCapped` | src/aiops_triage_pipeline/pipeline/stages/gating.py:86-201 | the gate loop is the declarative fold of the seven caps |
| `GateLaws.NeverExceedsCaps` | src/aiops_triage_pipeline/pipeline/stages/gating.py:71-239 | for every rulebook the result is at most the proposed action, the environment cap and the prod tier cap, and AG6 does not change it |
| `GateLaws.EnvCapAppliedIff` | src/aiops_triage_pipeline/pipeline/stages/gating.py:367-401 | env_cap_applied if and only if the action entering AG1 exceeds the environment cap |
| `GateLaws.WellFormedCaps` | src/aiops_triage_pipeline/contracts/rulebook.py:28-65 | a validated rulebook has a cap for every environment but possibly harness, and every tier |
| `GateLaws.TameIffMonotone` | src/aiops_triage_pipeline/pipeline/stages/gating.py:117-143 | a gate preserves the order of actions if and only if AG1's cap is not undercut by its effect, AG3 caps to TICKET or above, AG4 to NOTIFY or above; exactly then it is a plain minimum |
| `GateLaws.FinalIsGreatestAllowed` | src/aiops_triage_pipeline/pipeline/stages/gating.py:71-239 | with tame gates the result is the greatest action allowed by the proposal and all seven caps, in any order |
| `GateLaws.MonotoneInProposal` | src/aiops_triage_pipeline/pipeline/stages/gating.py:71-239 | with tame gates a higher proposal never ends lower |
| `GateLaws.EvaluateSucceeds` | src/aiops_triage_pipeline/pipeline/stages/gating.py:483-512 | a well-formed rulebook with known cap actions and usable AG4 checks never raises, except in an uncapped harness |
| `GateLaws.ShippedAg4FailsIff` | src/aiops_triage_pipeline/pipeline/stages/gating.py:428-471 | with the shipped checks AG4 fails exactly on confidence below 0.6 or not sustained |
| `GateLaws.ShippedClosedForm` | config/policies/rulebook-v1.yaml:13-180 | every evaluation under the shipped rulebook succeeds, and its action is one closed form of limit, denial, AG4 failure and store cap |
| `GateLaws.ShippedTameIff` | config/policies/rulebook-v1.yaml:108-131 | the shipped rulebook is tame for exactly the inputs that pass AG4 |
| `GateLaws.ShippedMonotoneIff` | config/policies/rulebook-v1.yaml:108-131 | for every input and store outcome the shipped rulebook is monotone in the proposal unless the input fails AG4, passes AG0 and AG2, may reach TICKET under environment and tier caps, and is not a duplicate |
| `GateLaws.ShippedNotMonotone` | config/policies/rulebook-v1.yaml:108-131 | throughout that family, proposing NOTIFY ends NOTIFY and proposing more ends OBSERVE |
| `GateLaws.PostmortemNormalised` | src/aiops_triage_pipeline/pipeline/stages/gating.py:203-209 | for every rulebook a postmortem that is not required has no mode and no codes, and a required one has a mode |
| `GateLaws.PostmortemIff` | src/aiops_triage_pipeline/pipeline/stages/gating.py:178-201 | a rulebook whose AG6 alone decides requires a postmortem exactly for valid, sustained prod tier-0 inputs in a peak window |
| `GateLaws.ShippedPostmortemIff` | config/policies/rulebook-v1.yaml:159-180 | so does the shipped one |
| `GateLaws.InsufficientIff` | src/aiops_triage_pipeline/pipeline/stages/gating.py:404-425 | evidence is insufficient if and only if some counting finding requires a key that is missing or not PRESENT and whose status, UNKNOWN when missing, it does not tolerate |
| `GateLaws.MissingEvidenceNeverEscalates` | src/aiops_triage_pipeline/pipeline/stages/gating.py:413-425 | under the shipped rulebook a counting finding with a missing, untolerated key ends at NOTIFY or below |
| `GateReasons.EffectRecords` | src/aiops_triage_pipeline/pipeline/stages/gating.py:515-552 | codes, mode, requirement and postmortem codes after an effect |
| `GateReasons.CodesAreContributed` | src/aiops_triage_pipeline/pipeline/stages/gating.py:86-203 | for every rulebook the reason codes are those of the gates that acted, each once, in the order first given |
| `GateReasons.InvalidInputIsObserved` | src/aiops_triage_pipeline/pipeline/stages/gating.py:359-364 | without a fingerprint or findings the shipped rulebook ends OBSERVE with AG0_INVALID_INPUT and no postmortem |
| `GateReasons.RequiredPostmortem` | src/aiops_triage_pipeline/pipeline/stages/gating.py:178-209 | a required postmortem has AG6's mode, SOFT when it forces none, and AG6's codes |
| `GateReasons.ShippedPostmortem` | config/policies/rulebook-v1.yaml:159-180 | under the shipped rulebook it is SOFT for the one reason PM_PEAK_SUSTAINED |
| `GateReasons.DuplicateIsSuppressed` | config/policies/rulebook-v1.yaml:133-157 | under the shipped rulebook a duplicate is suppressed to OBSERVE and says so |
| `GateEngine.EvaluationState.ApplyGateEffect` | src/aiops_triage_pipeline/pipeline/stages/gating.py:515-552 | applies an effect, or raises with the state unchanged |
| `GateEngine.EvaluationState.EvaluateAg1` | src/aiops_triage_pipeline/pipeline/stages/gating.py:367-401 | environment and tier caps on the state |
| `GateEngine.Ag2HasInsufficientEvidence` | src/aiops_triage_pipeline/pipeline/stages/gating.py:404-425 | some relevant finding requires evidence that is neither present nor excused |
| `GateEngine.Ag4FailureReasonCodes` | src/aiops_triage_pipeline/pipeline/stages/gating.py:428-471 | codes of the failed checks, or the configuration error |
| `GateEngine.UniqueInOrder` | src/aiops_triage_pipeline/pipeline/stages/gating.py:561-569 | distinct values in order of first appearance |
| `GateEngine.RunAg5` | src/aiops_triage_pipeline/pipeline/stages/gating.py:145-176 | AG5 against the store, including the duplicate effect that raises inside the store guard |
| `GateEngine.RunGates` | src/aiops_triage_pipeline/pipeline/stages/gating.py:83-201 | the loop computes the fold under the outcome the store gave |
| `GateEngine.EvaluateRulebookGates` | src/aiops_triage_pipeline/pipeline/stages/gating.py:71-239 | one evaluation with or without a store |
| `DedupeStore.RedisActionDedupeStore.IsDuplicate` | src/aiops_triage_pipeline/cache/dedupe.py:79-97 | whether the window is active; health follows the outcome |
| `DedupeStore.RedisActionDedupeStore.Remember` | src/aiops_triage_pipeline/cache/dedupe.py:99-130 | claims the key at most once per window; health follows the outcome |
| `DedupeStore.TtlValues` | src/aiops_triage_pipeline/cache/dedupe.py:74-77 | the default and the configured TTL of each action |
| `StormControl.UnsuppressedIsFresh` | src/aiops_triage_pipeline/pipeline/stages/gating.py:145-176 | a decision above both AG5 caps made a fresh claim for its own final action |
| `StormControl.StormControlled` | src/aiops_triage_pipeline/cache/dedupe.py:74-130 | over every single-threaded run with any store errors, two such decisions on one fingerprint are at least the first one's TTL apart |
| `StormControl.DefaultWindows` | src/aiops_triage_pipeline/cache/dedupe.py:13-18 | with the default TTLs two such decisions are two hours apart after a page, four after a ticket, one after a notification |
| `StormControl.LiveIsEvaluate` | src/aiops_triage_pipeline/pipeline/stages/gating.py:145-176 | a live decision is the fold under its own store outcome |
| `StormControl.ReplayNeedsTheVersion` | src/aiops_triage_pipeline/audit/replay.py:35-46 | nothing is replayed under a rulebook of another version |
| `StormControl.ReplayEquals` | src/aiops_triage_pipeline/audit/replay.py:16-46 | a replay equals the live decision in every field when the action entering AG5 is OBSERVE, the store failed, or a fresh claim met no store-error effect |
| `StormControl.ReplayRelates` | src/aiops_triage_pipeline/audit/replay.py:16-46 | for every outcome replay and live differ only by the AG5 caps; after a fresh claim the replay is the live action reduced by the store-error cap |
| `Sustained.ComputeSustainedStatusByKey` | src/aiops_triage_pipeline/pipeline/stages/peak.py:179-233 | the statuses, with reason codes, of all tracked and anomalous keys; raises exactly when a non-positive interval is needed |
| `Sustained.ReasonsTellTheStreak` | src/aiops_triage_pipeline/pipeline/stages/peak.py:353-403 | the reason codes say exactly whether the streak was held, continued or reset, and what it became |
| `Sustained.TrackedKeys` | src/aiops_triage_pipeline/pipeline/stages/peak.py:196-196 | tracked keys are those ever anomalous, stamped with the last cycle |
| `Sustained.StreakRefinesHistory` | src/aiops_triage_pipeline/pipeline/stages/peak.py:322-350 | after any run the streak is the number of evidence-backed anomalies in the longest bucket-consecutive suffix without a clean cycle; untracked counts zero |
| `Sustained.SustainedIff` | src/aiops_triage_pipeline/pipeline/stages/peak.py:216-232 | after any run a tracked key is sustained if and only if its longest unbroken suffix has at least `required` evidence-backed anomalies and the last cycle has evidence; exactly then the last reason says the threshold is met |
| `Sustained.KeyNames` | src/aiops_triage_pipeline/pipeline/stages/peak.py:301-319 | which key a finding belongs to |
| `Sustained.SustainedMeansBuckets` | src/aiops_triage_pipeline/pipeline/stages/peak.py:216-216 | sustained implies at least `required` distinct anomalous buckets |
| `Sustained.ConsecutiveIffNoMiss` | src/aiops_triage_pipeline/pipeline/scheduler.py:72-104 | two fire times are streak-consecutive if and only if the boundary moved and the tick reports no missed interval; missed intervals are the skipped buckets |
| `Sustained.TickMeans` | src/aiops_triage_pipeline/pipeline/scheduler.py:72-98 | a tick expects the multiple of the interval at or before the fire time, and its drift is the distance |
| `Registry.ParseTopicsLoop` | src/aiops_triage_pipeline/registry/loader.py:894-925 | parses every topic entry or fails |
| `Registry.V0TopicSays` | src/aiops_triage_pipeline/registry/loader.py:903-925 | a v0 entry is accepted if and only if it names a stream and a role; it keeps stream, role and source system, trimmed |
| `Registry.V1TopicSays` | src/aiops_triage_pipeline/registry/loader.py:1123-1155 | a v1 entry is accepted if and only if it names its parent or no stream, and a role; it keeps role and source system, trimmed |
| `Registry.GroupByStream` | src/aiops_triage_pipeline/registry/loader.py:894-915 | each mentioned stream with exactly its topics |
| `Registry.CanonicalizeV0Streams` | src/aiops_triage_pipeline/registry/loader.py:877-1001 | v0 streams with default scopes, and unknown stream references refused |
| `Registry.V0StreamSays` | src/aiops_triage_pipeline/registry/loader.py:936-971 | a v0 stream's id, scope and topics in terms of the raw entry, the defaults and the index |
| `Registry.CanonicalizeV1Streams` | src/aiops_triage_pipeline/registry/loader.py:1004-1096 | v1 streams and instances |
| `Registry.V1InstanceSays` | src/aiops_triage_pipeline/registry/loader.py:1041-1058 | a v1 instance's scope and topics in terms of the raw entry |
| `Registry.V1Owned` | src/aiops_triage_pipeline/registry/loader.py:1123-1138 | every v1 topic names its parent stream |
| `RegistryIndex.BuildIndexes` | src/aiops_triage_pipeline/registry/loader.py:821-863 | the three nested loops compute streams_by_id and the scoped topic index |
| `RegistryIndex.IndexIsExact` | src/aiops_triage_pipeline/registry/loader.py:821-863 | the index holds exactly the declared topics under their scopes |
| `RegistryIndex.ByIdExact` | src/aiops_triage_pipeline/registry/loader.py:824-831 | every stream is found under its unique id |
| `RegistryIndex.LoadsIffConflictFree` | src/aiops_triage_pipeline/registry/loader.py:821-863 | a registry loads if and only if ids are unique, no stream repeats a scope, no topic repeats in a scope, and roles are known when required |
| `CompatView.BuildV0CompatView` | src/aiops_triage_pipeline/registry/loader.py:574-641 | the streams and topic index of one scope, or the two errors |
| `CompatView.ViewExistsIff` | src/aiops_triage_pipeline/registry/loader.py:582-626 | a view exists if and only if both parts have text and some stream has an instance in the trimmed scope |
| `CompatView.V0RoundTripIff` | src/aiops_triage_pipeline/registry/loader.py:574-641 | a topic of a loaded v0 registry is shown, with its trimmed role, stream and source system, by exactly one scope's view if and only if that scope can be asked for |
| `CompatView.V0StreamInExactlyOneView` | src/aiops_triage_pipeline/registry/loader.py:594-618 | each v0 stream is listed by the view of its home scope and by no other |
| `CompatView.HomeReachableIff` | src/aiops_triage_pipeline/registry/loader.py:943-954 | a home scope can be asked for exactly where the stream names it or the default is trimmed and non-empty |
| `CompatView.HiddenByDefaultScope` | src/aiops_triage_pipeline/registry/loader.py:943-954 | for every default scope that trimming would change there is a v0 registry that loads and whose stream and topic no view shows |
| `Resolver.BuildLookupIndex` | src/aiops_triage_pipeline/registry/loader.py:193-217 | the index gives the first entry with the key |
| `Resolver.ValidateOwnershipMatrix` | src/aiops_triage_pipeline/registry/loader.py:1480-1542 | unique keys per level and, when required, every referenced routing key in the directory |
| `Resolver.OwnerIsFirstHit` | src/aiops_triage_pipeline/registry/resolver.py:404-441 | the chosen owner is the first hit of a plain scan in group, topic, stream, platform order |
| `Resolver.ScopeMeans` | src/aiops_triage_pipeline/registry/resolver.py:301-326 | which scopes are understood, and which part is topic and which is group |
| `Resolver.RoleNames` | src/aiops_triage_pipeline/registry/resolver.py:49-56 | the role of each of the six names |
| `Resolver.NeverDangles` | src/aiops_triage_pipeline/registry/resolver.py:140-285 | against any registry loaded with routing_key_required, no stream_not_found, stream_instance_not_found or routing_key_not_found |
| `Resolver.ReasonExactly` | src/aiops_triage_pipeline/registry/resolver.py:140-285 | against any loaded registry, exactly when each reason is given |
| `Resolver.ResolvedOwner` | src/aiops_triage_pipeline/registry/resolver.py:337-401 | a resolved scope has the topic's own stream and role and that first owner, whose routing key is in the directory |
| `Resolver.DefaultResolvesIff` | src/aiops_triage_pipeline/registry/resolver.py:140-285 | with a platform default a known topic resolves if and only if its role is supported |
| `Resolver.AskableIff` | src/aiops_triage_pipeline/registry/resolver.py:301-326 | some scope a caller can pass names an entry if and only if trimming leaves its environment, cluster and topic unchanged and non-empty |
| `Resolver.IndexedIsReachedIff` | src/aiops_triage_pipeline/registry/resolver.py:140-285 | over a loaded registry an indexed topic makes a difference to some resolution if and only if it can be asked for |
| `Resolver.UnreachedTopics` | src/aiops_triage_pipeline/registry/loader.py:915-925 | for every combination that cannot be asked for there is a registry that loads with such a topic, which no resolution sees |
| `Denylist.SanitizeMappingLoop` | src/aiops_triage_pipeline/denylist/enforcement.py:49-74 | the mapping loop computes the sanitised fields and the removal count |
| `Denylist.SanitizeValueLoop` | src/aiops_triage_pipeline/denylist/enforcement.py:77-110 | the value recursion computes the sanitised value and the removal count |
| `Denylist.FieldsClean` | src/aiops_triage_pipeline/denylist/enforcement.py:49-110 | no denied name and no matching string is left at any depth if and only if the untouched tuples were clean |
| `Denylist.SurvivorsIff` | src/aiops_triage_pipeline/denylist/enforcement.py:49-74 | the result holds exactly the fields whose name equals no denied name up to case and whose value is no text with a denied pattern, each with its sanitised value |
| `Denylist.CountsFieldSites` | src/aiops_triage_pipeline/denylist/enforcement.py:49-110 | the counter is the number of places where something is removed |
| `Denylist.TupleIsNotDescended` | src/aiops_triage_pipeline/denylist/enforcement.py:77-110 | a matching string inside a tuple survives |
| `Denylist.ZeroRemovedIffUnchanged` | src/aiops_triage_pipeline/denylist/enforcement.py:32-46 | zero removals are reported exactly when nothing changed |
| `Denylist.ComposeFields` | src/aiops_triage_pipeline/denylist/enforcement.py:49-110 | sanitising with D1 then D2 equals sanitising with their union, whose count is at most the sum |
| `Denylist.IdempotentFields` | src/aiops_triage_pipeline/denylist/enforcement.py:49-110 | sanitising twice is sanitising once |
| `Calendar.CutoffIsExact` | src/aiops_triage_pipeline/storage/lifecycle.py:184-189 | a valid date exactly `months` month-indexes back, on the greatest day not after the original |
| `Calendar.LeapYears` | src/aiops_triage_pipeline/storage/lifecycle.py:188-188 | the Gregorian rule |
| `Calendar.MonthLengths` | src/aiops_triage_pipeline/storage/lifecycle.py:188-188 | the length of every month |
| `Calendar.CutoffExistsIff` | src/aiops_triage_pipeline/storage/lifecycle.py:184-189 | it fails exactly outside years 1 to 9999 |
| `Calendar.CutoffDateMonotone` | src/aiops_triage_pipeline/storage/lifecycle.py:184-189 | the calendar date is monotone in now |
| `Calendar.CutoffMonotoneIff` | src/aiops_triage_pipeline/storage/lifecycle.py:184-189 | the full timestamp is monotone if and only if clamping does not merge two days while the clock goes back |
| `Calendar.CutoffCanGoBack` | src/aiops_triage_pipeline/storage/lifecycle.py:184-189 | 30 March 23:00 has a later cutoff than 31 March 01:00 |
| `Lifecycle.ExtractIff` | src/aiops_triage_pipeline/storage/lifecycle.py:192-196 | the case id is extracted from exactly the case-shaped keys |
| `Lifecycle.StageTexts` | src/aiops_triage_pipeline/storage/lifecycle.py:19-19 | what a stage name may consist of |
| `Lifecycle.CreatedByIff` | src/aiops_triage_pipeline/storage/lifecycle.py:199-207 | created by the cutoff if and only if a triage file, or without one any file, is that old |
| `Lifecycle.SortKeys` | src/aiops_triage_pipeline/storage/lifecycle.py:98-107 | the keys in strict string order |
| `Lifecycle.LessIff` | src/aiops_triage_pipeline/storage/lifecycle.py:98-107 | string order: a proper prefix first, else the smaller character at the first difference |
| `Lifecycle.SortedDistinct` | src/aiops_triage_pipeline/storage/lifecycle.py:98-107 | no key occurs twice |
| `Lifecycle.Chunked` | src/aiops_triage_pipeline/storage/lifecycle.py:210-220 | batches concatenate to the input, all full but perhaps the last |
| `Lifecycle.ListAll` | src/aiops_triage_pipeline/storage/lifecycle.py:73-90 | the paging loop counts and groups every listed object |
| `Lifecycle.SelectKeys` | src/aiops_triage_pipeline/storage/lifecycle.py:73-107 | the ordered keys of the cases created by the cutoff |
| `Lifecycle.DeleteAll` | src/aiops_triage_pipeline/storage/lifecycle.py:113-121 | batches are sent in order until one raises; an honest store's answers cover exactly the keys sent |
| `Lifecycle.RunOnce` | src/aiops_triage_pipeline/storage/lifecycle.py:61-141 | whatever happens only case-shaped keys of cases created by the cutoff are sent, each once, in string order and in batches within the limit; a normal return has sent them all and reports how many the answers call deleted and failed, and the case ids; raises exactly when there are any and approval is missing, or when a delete raised |
| `Lifecycle.ApprovalMissingIff` | src/aiops_triage_pipeline/storage/lifecycle.py:54-56 | the approval is missing exactly when none or the empty text is configured |
| `Lifecycle.WholeCaseOrNone` | src/aiops_triage_pipeline/storage/lifecycle.py:92-107 | two listed keys of one case share their fate |
| `Lifecycle.PagingIsIrrelevant` | src/aiops_triage_pipeline/storage/lifecycle.py:73-107 | only the set of listed objects matters |
| `Retention.StoredKeyIsSeenIff` | src/aiops_triage_pipeline/storage/lifecycle.py:19-19 | the key of a case file is case-shaped for the purge if and only if its trimmed case id has no slash, and is then filed under that id |
| `Retention.SlashedCasesAreNeverPurged` | src/aiops_triage_pipeline/storage/casefile_io.py:192-199 | a file of a case whose trimmed id has a slash is never purged |
| `Retention.StoredFileIsPurgedIff` | src/aiops_triage_pipeline/storage/lifecycle.py:92-107 | a listed case file is purged if and only if its trimmed case id has no slash and the case is old enough |
| `Retention.TriageDatesTheCase` | src/aiops_triage_pipeline/storage/lifecycle.py:199-207 | of the stored files of a case exactly triage.json dates it |

## Left out

- The broker, S3, Postgres, Redis and HTTP clients: each is an abstract store or channel with the failures the code handles.
- Order of equal keys and of errors: when several violations exist at once, which one a loader or loop reports first is not modelled.
- The registry's routing_directory and ownership_map parsing, TopologyRegistryLoader's reload, version detection, sorting of streams: values are taken as parsed; lookups do not depend on the order.
- Resolver.ResolvedOwner: downstream impacts, source system, criticality tier, blast radius and diagnostics of a resolution are not modelled, because they add only table lookups.
- Classification of a failed ServiceNow call (_classify_failure_from_linkage_result, Retry-After parsing) is a function parameter of the linkage call.
- LinkageStage.MetadataRoundTrip: metadata values are texts, lists of texts and numbers; `str()` of other JSON values is not modelled.
- The legacy linkage path without a repository, Slack escalation and the SLO metrics.
- ServiceNow incident correlation, payload descriptions and their sanitising; a record is its key and the problem it points at.
- ServiceNow.LookupIsExact: the remote answers a lookup truthfully and always with sys_ids; a remote that omits them is not modelled.
- ServiceNow.CallsKeepUnique: in whole linkage calls a write whose reply is lost is applied at once; writes applied after the retry's lookup are covered by ServiceNow.RunKeepsUnique and ServiceNow.LateWriteDuplicates.
- OutboxWorker.OutboxPublisherWorker.PublishOne: metrics, latency samples, logs and the text of an exception are not modelled; the exception's type stands for it.
- The derivation of missing evidence for a sustained key (_has_insufficient_evidence_for_sustained_key): evidence per key and cycle is an input.
- Gate-input assembly, logging, latency warnings and build_audit_trail.
- Concurrent evaluations of one fingerprint: AG5 ignores the result of `remember`, so storm control is stated for one thread.
- Lifecycle.RunOnce: the client's own trimming of keys before deletion is not modelled.
- Backoff.DefaultDelayGrowsExactlyUntilCap: growth is stated for the default parameters only; for other jitter ratios consecutive windows may overlap.
- Direct diagnosis persistence in diagnosis/graph.py, which skips the dependency check, is outside the hash-chain runs.
- Outbox backlog health, retention of outbox rows and alerting; metrics, anomaly detectors, peak profiles, health server, settings, CLI and harness.
