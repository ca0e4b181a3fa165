# Verified model of the full-managed operations scripts

Seven operational scripts move, replace, merge or delete data that cannot be
fetched again. This project models their logic in Dafny and proves what an
operator relies on.

* **Webhook database cutover** (`Framing`, `Keys`, `Tables`, `Endpoint`, `Scan`,
  `Snapshot`, `PreparePlan`, `PlanHash`, `PrepareStream`, `PrepareApply`,
  `Reverse`, `CutoverRun`, `PrepareRun`, `ReverseRun`). Two PostgreSQL systems
  hold seven keyed tables. The forward preparation plans with a merge over two
  digest streams and applies with another algorithm; the reverse run updates
  the very table it is scanning. Tables are maps, a system is an object with a
  committed state, and every database call asks a `Faults` object whether it
  fails. A commit may be applied and its answer lost; no other failure is
  swallowed, so success of a step means that every call in it succeeded.
* **Resumable business coordinator** (`StageResult`, `CoordinatorPlan`,
  `Coordinator`, `CoordinatorRuns`, `CoordinatorOutcomes`, `CoordinatorBudget`,
  `CoordinatorLimits`, `CoordinatorLoop`). A state machine over the state file, one activation's
  memory with its queue of unwritten snapshots, and the publisher, with crashes
  between any two events. The theorems speak of every run; the code of a
  sequential activation, as it is written, is proved to be such a run.
* **Store-login batch replacement** (`FileReplace`, `JsonKeys`). A file system
  that remembers every state it was in and what was synced, and a scanner for top-level JSON keys
  proved against the grammar of RFC 8259.
* **Reporting-goods imports** (`ReportingGoods`, `ReportingHistory`,
  `ReportingStack`). SQL statements as functions on tables, transactions as
  methods, imports and rollbacks as a stack.
* **History pruning** (`History`). What a dashboard can reach is the same
  before and after.
* **Receipt finalization** (`Finalize`, `Utf8`). A compensating transaction
  over three resources, with the exact conditions under which it is all or
  nothing.
* **Order-management backfill** (`Backfill`). Windows, a conflict-checking
  merge, and the distribution of rows over pages. The merge key joins page,
  store and id with U+001F; which store codes make it an identity is stated
  exactly, and the fixed roster (`Stores`) is among them, so that only an
  injected `runWindow` could return rows it confuses.

`Common` and `Text` hold result types, the source of failures, and trimming.

## Conventions

SHA-256 is stood for by the identity on texts, so equal hashes mean equal
inputs. Texts are sequences of characters, one byte each where lengths are
framed. A statement, and a rename, is atomic; a rename that reports failure has
not happened. Days and timestamps that are only compared are integers.

## Where the code does not keep what it promises

* *Finalization can report a full rollback that is none.* `approveStore` writes
  its file and only then releases its lock; when the release throws, the saga
  believes that nothing was approved, restores configuration and receipt, and
  reports `FINALIZATION_TRANSACTION_FAILED` with the approval still stored.
  Besides, the configuration backup is read as UTF-8 text, so bytes that are
  not well-formed come back as U+FFFD. `Finalize.RolledBackExactlyWhen` states
  the exact condition; `Finalize.ApprovalCanOutliveRollback` and
  `Finalize.StoreNameCanDiffer` give concrete runs.
* *A stage may complete without evidence.* After exit code 2, a home, ledger,
  supply or finance stage whose output held no summary counts as complete
  (`StageResult.MissingSummaryCompletes`), and failing rows of unknown stores
  ask for no retry (`StageResult.PartialExitRetriesExactly`).
* *Only a stored completion is final.* In every plan, a stage whose completion
  was lost in a crash can be launched again
  (`CoordinatorLimits.UnsavedCompletionIsRerun`).
* *A history plan pins the snapshots it deletes only where store and fetch
  batch identify them.* The plan hash is documented to cover the identities being
  deleted, but a snapshot fingerprint lists only store and fetch batch of each
  candidate. Equal plans delete the same snapshots exactly when no two rows older
  than the cutoff share that pair, which a GROUP BY shows before the run
  (`History.InventoryPinnedExactlyWhen`, `History.AdvicePinnedExactlyWhen`);
  partitions and projection batches are always pinned
  (`History.EqualPlansDeleteSameBatches`).

## Model

| member | source | states |
|---|---|---|
| `Framing.UnframeInvertsFrames` | scripts/fnos_webhook_cutover.mjs:381-386 | reading length, colon and body back recovers every list of framed bodies |
| `Framing.FramesInjective` | scripts/fnos_webhook_cutover.mjs:381-386 | two frame sequences with one byte stream are equal, in number, contents and order |
| `Framing.DecimalReadsBack` | scripts/fnos_webhook_cutover.mjs:381-386 | the decimal length written before a body is digits only and reads back as the length |
| `Framing.IntTextInjective` | scripts/fnos_webhook_cutover.mjs:355-375 | distinct integers are hashed as distinct texts |
| `Framing.OptionTextInjective` | scripts/fnos_webhook_cutover.mjs:355-375 | null and every text are hashed differently |
| `Keys.Compare` | scripts/fnos_webhook_cutover.mjs:408-415 | the sign decides the key order, and zero means equal keys |
| `Keys.LessIsStrictOrder` | scripts/fnos_webhook_cutover.mjs:397-415 | the primary-key order is irreflexive, transitive and total |
| `Keys.FirstDifferenceDecides` | scripts/fnos_webhook_cutover.mjs:402-405 | texts are ordered by the characters at their first difference, and a proper prefix comes first |
| `Keys.CompareByComponents` | scripts/fnos_webhook_cutover.mjs:408-415 | keys compare by id, and for equal ids by the first difference of their gates |
| `Keys.IncreasingIsUnique` | scripts/fnos_webhook_cutover.mjs:577-599 | a set of keys has one increasing listing, so ORDER BY leaves no choice |
| `Tables.ReceiptUpdateNeeded` | scripts/fnos_webhook_cutover.mjs:1558-1568 | it fails exactly on a smaller count, a lost timestamp or an earlier one; otherwise it says whether the pair changed |
| `Tables.ReceiptsOnlyGrow` | scripts/fnos_webhook_cutover.mjs:1558-1568 | a smaller count, and otherwise a timestamp lost or earlier at the first difference, is refused under its own code; everything else is accepted |
| `Tables.LaterTimestampIsUpdate` | scripts/fnos_webhook_cutover.mjs:1558-1568 | of two timestamps that agree up to a character, moving to the later one is an update and moving to the earlier one a regression |
| `Tables.ListingIsExact` | scripts/fnos_webhook_cutover.mjs:577-599 | an ordered range read lists every in-range row once, in strictly increasing key order, and nothing else |
| `Tables.ListingResumes` | scripts/fnos_webhook_cutover.mjs:735-767 | restarting behind the n-th key of a listing yields exactly the rest of it |
| `Tables.ListingDependsOnRange` | scripts/fnos_webhook_cutover.mjs:577-599 | rows outside a range do not influence its listing |
| `Tables.KeyTextInjective` | scripts/fnos_webhook_cutover.mjs:392-395 | equal key tokens mean equal keys |
| `Tables.RowTextInjective` | scripts/fnos_webhook_cutover.mjs:601-607 | equal full texts mean equal rows |
| `Tables.ImmutableTextInjective` | scripts/fnos_webhook_cutover.mjs:609-612 | equal immutable texts mean agreement on every column but the two mutable ones, and conversely |
| `Endpoint.PgEndpoint.BeginFrozen` | scripts/fnos_webhook_cutover.mjs:626-651 | a successful begin holds the committed state in a fresh session; without a fault the session is newer than any before |
| `Endpoint.PgEndpoint.SelectPage` | scripts/fnos_webhook_cutover.mjs:735-767 | one page is the first rows of the range behind the cursor |
| `Endpoint.PgEndpoint.FetchRowsByKeys` | scripts/fnos_webhook_cutover.mjs:769-808 | it returns the rows of the keys in order, and fails only on a fault, a bad bound, unordered keys or a missing row |
| `Endpoint.PgEndpoint.FetchDigestEntriesByKeys` | scripts/fnos_webhook_cutover.mjs:810-867 | it returns the entries of exactly those keys the table holds |
| `Endpoint.PgEndpoint.ApplyOperation` | scripts/fnos_webhook_cutover.mjs:1037-1076 | one statement changes one row as the operation says, unless an enabled touch trigger overwrites it |
| `Endpoint.PgEndpoint.InsertChunk` | scripts/fnos_webhook_cutover.mjs:1078-1112 | a multi-row insert stores all rows or, on any existing or repeated key, none |
| `Endpoint.PgEndpoint.ApplyInsertBatch` | scripts/fnos_webhook_cutover.mjs:1078-1112 | however rows are cut into statements, they are stored together as one overlay of the table |
| `Endpoint.ChunkLimit` | scripts/fnos_webhook_cutover.mjs:1078-1112 | a statement carries at least one row, at most a batch, and never more parameters than allowed; it fails exactly when one row is too wide |
| `Endpoint.OverlaySplits` | scripts/fnos_webhook_cutover.mjs:1078-1112 | inserting in chunks equals inserting at once |
| `Endpoint.InsertableSplits` | scripts/fnos_webhook_cutover.mjs:1078-1112 | a list can be inserted at once exactly when each chunk can be inserted after the earlier ones |
| `Endpoint.PgEndpoint.RestartSequence` | scripts/fnos_webhook_cutover.mjs:1114-1119 | only the named sequence changes |
| `Endpoint.PgEndpoint.SetControlledTriggers` | scripts/fnos_webhook_cutover.mjs:1001-1008 | on success every controlled trigger is switched and no other trigger is |
| `Endpoint.PgEndpoint.Commit` | scripts/fnos_webhook_cutover.mjs:1121-1125 | the published state is the old one or the whole transaction; success means the latter |
| `Endpoint.PgEndpoint.Rollback` | scripts/fnos_webhook_cutover.mjs:1127-1131 | it publishes nothing and fails only on a fault |
| `Scan.PaginationIsExact` | scripts/fnos_webhook_cutover.mjs:735-767 | for every page size, the pages concatenate to the range listing, all but the last are full, and their number is what the row count gives, also at exact multiples |
| `Scan.WritesBehindTheCursor` | scripts/fnos_webhook_cutover.mjs:735-767 | changing rows the scan has already passed does not change what it will still yield |
| `Scan.RowScan.Next` | scripts/fnos_webhook_cutover.mjs:735-767 | the scan yields the pending listing row by row and ends exactly when it is used up |
| `Scan.RowScan.Fill` | scripts/fnos_webhook_cutover.mjs:735-767 | fetching a page loses and repeats no pending row |
| `Snapshot.DigestTable` | scripts/fnos_webhook_cutover.mjs:1147-1173 | the running hashes, counter and last id equal the digest record of the listed rows |
| `Snapshot.DigestsDetermineRows` | scripts/fnos_webhook_cutover.mjs:1147-1173 | equal full, key or immutable digests mean equal ordered rows, keys or immutable columns |
| `Snapshot.TableDigestDeterminesTable` | scripts/fnos_webhook_cutover.mjs:1147-1173 | two tables have one digest record exactly when they are equal |
| `Snapshot.MaxIdBounds` | scripts/fnos_webhook_cutover.mjs:1249-1257 | the digest maximum is below the next sequence value exactly when every used id is |
| `Snapshot.ValidateSnapshotMeansSound` | scripts/fnos_webhook_cutover.mjs:1249-1272 | a snapshot validates exactly when no sequence would hand out a used id and every trigger is enabled |
| `Snapshot.SnapshotsEqualMeansSameDatabase` | scripts/fnos_webhook_cutover.mjs:1274-1289 | two snapshots are equal exactly when the databases behind them are, sequences and triggers included |
| `Snapshot.SnapshotEndpoint` | scripts/fnos_webhook_cutover.mjs:1175-1197 | it returns the snapshot of the frozen state, and fails only on a fault or an unsound database |
| `PreparePlan.ChangedIsExact` | scripts/fnos_webhook_cutover.mjs:1884-1950 | the planned rows are exactly those that differ and those that are missing; equal rows are in neither list |
| `PreparePlan.ChangedIncreases` | scripts/fnos_webhook_cutover.mjs:1884-1950 | both lists are in strictly increasing key order |
| `PreparePlan.PlanReachesSource` | scripts/fnos_webhook_cutover.mjs:1884-1950 | updates in key order, then inserts in key order, turn every safe target table into the source table |
| `PreparePlan.PlanIsEmptyOnlyForSource` | scripts/fnos_webhook_cutover.mjs:1884-1950 | the plan is empty exactly when the target already is the source |
| `PreparePlan.ReceiptSafeByColumns` | scripts/fnos_webhook_cutover.mjs:1990-2002 | a stored receipt may be prepared exactly when its immutable columns agree, its count does not fall and its timestamp does not go back |
| `PreparePlan.MergeMatch` | scripts/fnos_webhook_cutover.mjs:1884-1950 | one matched pair of the merge advances both sides and records an update exactly when the rows differ |
| `PreparePlan.MergeInsert` | scripts/fnos_webhook_cutover.mjs:1884-1950 | a source key below the target head is missing from the target |
| `PreparePlan.MergeTargetOnly` | scripts/fnos_webhook_cutover.mjs:1884-1950 | a target head below the source head is a key the source does not have |
| `PreparePlan.MergeEnd` | scripts/fnos_webhook_cutover.mjs:1884-1950 | a merge that consumed both streams saw every target key in the source and produced exactly the plan |
| `PlanHash.PlanHashBindsOperations` | scripts/fnos_webhook_cutover.mjs:1624-1670 | equal plan hashes mean the same header and the same operations in the same order |
| `PlanHash.HeaderTextInjective` | scripts/fnos_webhook_cutover.mjs:1624-1638 | the header fixes mode, baseline, both fingerprints and the target state |
| `PlanHash.FingerprintBindsDatabase` | scripts/fnos_webhook_cutover.mjs:1321-1323 | equal fingerprints mean one system holding one database |
| `PlanHash.StepTextInjective` | scripts/fnos_webhook_cutover.mjs:1639-1659 | one hashed operation fixes table, kind, key and written columns |
| `PlanHash.PlanAccumulator.Add` | scripts/fnos_webhook_cutover.mjs:1639-1659 | the stream gains exactly the frame of the operation, and its count goes up by one |
| `PlanHash.PlanAccumulator.Finish` | scripts/fnos_webhook_cutover.mjs:1660-1670 | the plan record is the hash and the counts of the operations added |
| `PlanHash.SameStepsSamePlan` | scripts/fnos_webhook_cutover.mjs:2080-2084 | planning one operation list twice always passes the drift check |
| `PrepareStream.ClassifyDecides` | scripts/fnos_webhook_cutover.mjs:1992-2007 | from hashes alone the classification finds exactly the insert, the allowed update, the equal row or the forbidden change |
| `PrepareStream.InsertSpool.NextBatch` | scripts/fnos_webhook_cutover.mjs:1776-1858 | the spool hands its keys back in order, in batches of the asked size, until none is left |
| `PrepareStream.FlushPreparedKeys` | scripts/fnos_webhook_cutover.mjs:1760-1774 | fetching the waiting keys emits their rows in order |
| `PrepareStream.MergeStep` | scripts/fnos_webhook_cutover.mjs:1884-1950 | each turn of the merge keeps the streams aligned and handles the smaller head |
| `PrepareStream.StreamPrepareSinglePass` | scripts/fnos_webhook_cutover.mjs:1884-1950 | if it finishes, the table was safe and exactly its plan was emitted, for every batch size; it fails only on a fault or for an unsafe table |
| `PrepareStream.CalculatePreparePlan` | scripts/fnos_webhook_cutover.mjs:1965-1990 | all tables in apply order give one plan record; it fails only on a fault or an unsafe table |
| `PrepareApply.TouchedSuffices` | scripts/fnos_webhook_cutover.mjs:2009-2061 | writing only the rows that are missing or differ has the effect of writing them all |
| `PrepareApply.BatchSeesOriginal` | scripts/fnos_webhook_cutover.mjs:2063-2078 | a batch finds its keys as they were before the pass: earlier batches wrote only smaller keys |
| `PrepareApply.ClassifyBatch` | scripts/fnos_webhook_cutover.mjs:2009-2061 | probing by key classifies every row of the batch as the plan would |
| `PrepareApply.WriteDescriptors` | scripts/fnos_webhook_cutover.mjs:2009-2061 | interleaving grouped inserts with updates writes exactly the touched rows of the batch |
| `PrepareApply.ApplyPrepareBatch` | scripts/fnos_webhook_cutover.mjs:2009-2061 | one batch overlays the target with its source rows and writes as many rows as differ |
| `PrepareApply.WritesMatchPlan` | scripts/fnos_webhook_cutover.mjs:2063-2078 | the pass writes as many rows as the plan has operations |
| `PrepareApply.ConvergedReachesSource` | scripts/fnos_webhook_cutover.mjs:2063-2078 | a converged target without keys of its own is the source, and so is what the plan reaches |
| `PrepareApply.ApplyPrepareConvergence` | scripts/fnos_webhook_cutover.mjs:2063-2078 | the apply pass converges every table with as many writes as planned operations, for every batch size |
| `PrepareApply.SecondRunIsIdle` | scripts/fnos_webhook_cutover.mjs:2063-2078 | a second run over a converged target writes nothing |
| `Reverse.ReverseParts` | scripts/fnos_webhook_cutover.mjs:1575-1622 | given the prefix checks, splitting at the baseline maximum splits the changed rows from the missing ones |
| `Reverse.NoRegressionByColumns` | scripts/fnos_webhook_cutover.mjs:1558-1568 | no regression means, receipt by receipt, that no count falls and no timestamp goes back |
| `Reverse.ReversePlanIsForwardPlan` | scripts/fnos_webhook_cutover.mjs:1575-1622 | the reverse split plans the very operations the forward merge would |
| `Reverse.ReverseReachesSource` | scripts/fnos_webhook_cutover.mjs:1575-1622 | in-range updates plus new rows turn every target table into the source table, and no receipt count decreases |
| `Reverse.UpdateBehindScan` | scripts/fnos_webhook_cutover.mjs:1575-1605 | updating the row just yielded does not change what the same scan yields next |
| `Reverse.StreamBaselineUpdates` | scripts/fnos_webhook_cutover.mjs:1575-1605 | it emits exactly the changed prefix rows in key order, whether or not it writes to the table it scans; it fails only on a fault or a regressed counter |
| `Reverse.StreamNewRows` | scripts/fnos_webhook_cutover.mjs:1607-1613 | it emits an insert for every source row above the baseline maximum, in key order |
| `Reverse.StreamTable` | scripts/fnos_webhook_cutover.mjs:1615-1622 | planning and applying emit one and the same list; applying leaves the source table |
| `Reverse.StreamOperations` | scripts/fnos_webhook_cutover.mjs:1615-1622 | both passes emit the same operations over all tables; the writing pass leaves exactly the source tables; passing means nothing regressed |
| `Reverse.RunPlan` | scripts/fnos_webhook_cutover.mjs:1703-1758 | the plan record of either pass is that of the same operations |
| `Reverse.CheckPrefixMeansPrefixHolds` | scripts/fnos_webhook_cutover.mjs:1520-1546 | the digest checks pass exactly when the target is the source prefix: same keys, same immutable receipt columns, same append-only rows |
| `Reverse.PrefixChecksMeanPrefixesHold` | scripts/fnos_webhook_cutover.mjs:1520-1546 | with the target at the baseline, the checks decide the prefix property of every table |
| `Reverse.ValidateSourceBaselinePrefixes` | scripts/fnos_webhook_cutover.mjs:1520-1546 | passing means every table passed its checks; failing means a fault or a table that does not |
| `CutoverRun.CheckFreshSession` | scripts/fnos_webhook_cutover.mjs:566-575 | it passes exactly when backend and, over SSH, transport differ from the earlier session |
| `CutoverRun.SnapshotFields` | scripts/fnos_webhook_cutover.mjs:1295-1304 | a snapshot counts as at rest exactly when no job and no directive row of the database is unfinished |
| `CutoverRun.ReadbackVerdict` | scripts/fnos_webhook_cutover.mjs:2154-2173 | success exactly when both sides are at rest, both sessions are new, the source is unchanged and the target equals the frozen source; COMMIT_NOT_APPLIED exactly when, after an uncertain commit, the target is at its pre-state; a third state is POST_COMMIT_MISMATCH |
| `CutoverRun.FreshSnapshots` | scripts/fnos_webhook_cutover.mjs:2127-2146 | both snapshots are of the committed databases over new sessions, no fault is hidden, and an unsound or unreadable system is an unverified outcome |
| `CutoverRun.AuthoritativeReadback` | scripts/fnos_webhook_cutover.mjs:2121-2174 | the verdict is true of the committed databases whatever the commit did, and without a fault it is reached |
| `CutoverRun.SwitchTriggers` | scripts/fnos_webhook_cutover.mjs:1238-1247 | on success exactly the controlled triggers have the asked state and all others are enabled |
| `CutoverRun.AlignTargetSequences` | scripts/fnos_webhook_cutover.mjs:2086-2090 | every managed sequence equals the source sequence and nothing else changed |
| `CutoverRun.VerifyFrozenFinalState` | scripts/fnos_webhook_cutover.mjs:2092-2119 | passing means the target equals the frozen source inside the transaction, triggers and sequences included |
| `CutoverRun.FinishApply` | scripts/fnos_webhook_cutover.mjs:2448-2460 | the end of an apply phase leaves the target equal to a sound source or fails |
| `CutoverRun.CommitAndReadBack` | scripts/fnos_webhook_cutover.mjs:2462-2500 | under every fault, the target ends at its pre-state or at the source, and the answer never claims the wrong one |
| `PrepareRun.ApprovalBindsDatabases` | scripts/fnos_webhook_cutover.mjs:1624-1638 | one approved plan hash stands for one mode, one baseline, one pair of systems and one pair of databases |
| `PrepareRun.DecidePrepare` | scripts/fnos_webhook_cutover.mjs:2333-2436 | the plan decided on is that of the frozen databases, and execution insists on the approved hash |
| `PrepareRun.ApplyPrepare` | scripts/fnos_webhook_cutover.mjs:2440-2460 | the apply phase makes the target equal to the source, or fails for a fault or an inadmissible input |
| `PrepareRun.ConcludeRun` | scripts/fnos_webhook_cutover.mjs:2350-2521 | whatever fails from here on, the outcome reported is true of the committed databases, the report says what was asked for and done, and no failure but a lost commit answer passes for success |
| `PrepareRun.RunPrepareForward` | scripts/fnos_webhook_cutover.mjs:2285-2521 | whatever fails, the source is untouched and the target old or equal to it; it succeeds only between the approved systems, sound, at rest, with empty side tables and a safe target, and every report is true; without a fault it fails only where it must and leaves no transaction open |
| `ReverseRun.ForwardManifestIsValid` | scripts/fnos_webhook_cutover.mjs:1370-1385 | the manifest of an admissible pair passes validateBaseline and matches the database it was taken from |
| `ReverseRun.RunForward` | scripts/fnos_webhook_cutover.mjs:1472-1518 | it writes nothing, returns a valid baseline of both systems, and fails only on a fault or an inadmissible pair |
| `ReverseRun.BaselineNamesOneDatabase` | scripts/fnos_webhook_cutover.mjs:1363-1368 | a baseline taken from a database is matched by that database and by no other |
| `ReverseRun.BaselineAcceptedExactlyWhen` | scripts/fnos_webhook_cutover.mjs:1325-1361 | the manifest of a database is accepted exactly when it names two systems, carries its own fingerprint, and the database is sound, at rest and has empty side tables |
| `ReverseRun.ReverseApprovalBinds` | scripts/fnos_webhook_cutover.mjs:2548-2570 | two reverse runs that may be planned and have one plan hash are against one baseline and between the same two systems holding the same two databases |
| `ReverseRun.ApplyReverse` | scripts/fnos_webhook_cutover.mjs:2640-2663 | the writing pass always matches the reading pass, and the target ends equal to the source |
| `ReverseRun.RunReverse` | scripts/fnos_webhook_cutover.mjs:2523-2712 | the same honesty for the reverse run; it succeeds only from the baseline's target to its source, both sound and at rest, when the target was the source already or is the baseline the source extends, with nothing regressed; without a fault no transaction stays open |
| `StageResult.UniqueStoreCodes` | scripts/run_full_managed_business_coordinator.mjs:322-326 | the known stores named, each once |
| `StageResult.CheckSalesRows` | scripts/run_full_managed_business_coordinator.mjs:374-395 | the loop accepts exactly the row lists whose rows are all known and agree per store |
| `StageResult.ExitCodesDecide` | scripts/run_full_managed_business_coordinator.mjs:343-483 | a stage completes after exit code 0, or after 2 as far as its summary allows, and never else; 75 alone defers; every other code but 2 is fatal |
| `StageResult.PartialExitRetriesExactly` | scripts/run_full_managed_business_coordinator.mjs:351-483 | after exit code 2 the retry stores are exactly the known stores of rows that, by their fields, ask for one, and the stage completes, or fails the run, exactly as the summary says |
| `StageResult.ConsistentMeansAgree` | scripts/run_full_managed_business_coordinator.mjs:360-391 | the sales summary is accepted exactly when it has rows, all of roster stores and known statuses, and rows of one store agree |
| `Stores.CanonicalIgnoresCase` | src/config/full-managed-stores.mjs:31-35 | a value names a store exactly when, trimmed, it is the code with letters of either case |
| `Text.TrimDropsOuterBlanks` | scripts/finalize_full_managed_authorization_receipt.mjs:592-611 | trimming removes the white space at both ends and nothing else |
| `StageResult.RecoveryComesFromRenewal` | scripts/run_full_managed_business_coordinator.mjs:343-484 | recovery is asked for exactly by a renewal that exits with code 2, and only together with completion |
| `StageResult.MissingSummaryCompletes` | scripts/run_full_managed_business_coordinator.mjs:343-484 | exit code 2 without a summary completes every data stage but sales, and renewals |
| `CoordinatorPlan.BuiltPlansAreValid` | scripts/run_full_managed_business_coordinator.mjs:132-307 | in every plan stage names are distinct and a conditional stage follows its predecessor in a sequential plan |
| `CoordinatorPlan.StageArgsForStores` | scripts/run_full_managed_business_coordinator.mjs:486-510 | the loop computes the launch arguments |
| `CoordinatorPlan.WithoutStoresSelectsNone` | scripts/run_full_managed_business_coordinator.mjs:496-506 | no earlier store selection survives beside the pending stores |
| `CoordinatorPlan.OtherArgumentsStay` | scripts/run_full_managed_business_coordinator.mjs:496-506 | no other argument of a stage is lost or repeated |
| `CoordinatorPlan.CsvReadsBack` | scripts/run_full_managed_business_coordinator.mjs:507-508 | the comma-separated list of stores reads back as the stores |
| `CoordinatorPlan.LaunchNamesStores` | scripts/run_full_managed_business_coordinator.mjs:486-510 | a launch with pending stores names exactly them, last and nowhere else; without any the arguments are the stage's own |
| `CoordinatorPlan.ScopedRunIdInjective` | scripts/run_full_managed_business_coordinator.mjs:493 | distinct attempts give distinct run ids |
| `CoordinatorPlan.LaunchCarriesAttempt` | scripts/run_full_managed_business_coordinator.mjs:486-510 | every launch of an attempt-scoped stage runs under the id of its own attempt |
| `Coordinator.CompletedIsFinal` | scripts/run_full_managed_business_coordinator.mjs:610-614 | a stored state that continues a complete plan equals it |
| `CoordinatorRuns.StageEventKeeps` | scripts/run_full_managed_business_coordinator.mjs:642-736 | every stretch of a stage code keeps the queue, the gates and the tickets consistent |
| `CoordinatorRuns.FlushKeeps` | scripts/run_full_managed_business_coordinator.mjs:634-639 | each write continues the stored state: attempts do not fall and complete stages stay |
| `CoordinatorRuns.PublishKeeps` | scripts/mark_full_managed_coordinators_published.mjs:75-89 | the publisher, reading and writing at different times, publishes only complete plans |
| `CoordinatorRuns.RunKeeps` | scripts/run_full_managed_business_coordinator.mjs:601-758 | the invariant holds after every run of activations and crashes |
| `CoordinatorRuns.AttemptsNeverRepeat` | scripts/run_full_managed_business_coordinator.mjs:661-681 | successive launches of one stage carry strictly increasing attempt numbers, over all activations and crashes |
| `CoordinatorRuns.RunIdsNeverRepeat` | scripts/run_full_managed_business_coordinator.mjs:486-494 | no two launches of an attempt-scoped stage share a run id |
| `CoordinatorRuns.PublicationIsGated` | scripts/run_full_managed_business_coordinator.mjs:746-749 | READY_TO_PUBLISH and PUBLISHED are stored only with every plan stage COMPLETE |
| `CoordinatorRuns.LaunchesAreGated` | scripts/run_full_managed_business_coordinator.mjs:642-681 | at every launch the file shows the attempt, in a sequential plan every earlier stage COMPLETE, and for a recovery stage its predecessor COMPLETE and asking for recovery |
| `CoordinatorRuns.CompleteIsNeverRelaunched` | scripts/run_full_managed_business_coordinator.mjs:643-644 | a stage stored as COMPLETE keeps its entry and is never launched again, whatever follows |
| `CoordinatorBudget.LaunchesFitTheBudget` | scripts/run_full_managed_business_coordinator.mjs:669-728 | one activation launches a stage at most ceil(budget / shortest pause) times |
| `CoordinatorOutcomes.ExitOutcome` | scripts/run_full_managed_business_coordinator.mjs:681-736 | what an exit records: complete, failed with the whole run, retrying or waiting, with attempts, stores and pause |
| `CoordinatorOutcomes.BudgetOutcome` | scripts/run_full_managed_business_coordinator.mjs:669-680 | an attempt is recorded before its launch while the budget lasts; after it the stage waits with its stores |
| `CoordinatorOutcomes.CloseOutcome` | scripts/run_full_managed_business_coordinator.mjs:746-758 | an activation ends ready exactly when all stages are complete |
| `CoordinatorOutcomes.CloseWaitsForStages` | scripts/run_full_managed_business_coordinator.mjs:737-746 | an activation ends only when no stage is deciding, starting, running or pausing |
| `CoordinatorOutcomes.DoneHasEvidence` | scripts/run_full_managed_business_coordinator.mjs:642-736 | over whole runs, whatever counts as complete was completed by an exit with code 0, by an accepted partial exit, or as a recovery nothing asked for |
| `CoordinatorOutcomes.PublicationHasEvidence` | scripts/mark_full_managed_coordinators_published.mjs:1-60 | a run stored as ready or published has such evidence for every stage |
| `CoordinatorOutcomes.RetryIsForAskedStores` | scripts/run_full_managed_business_coordinator.mjs:681-735 | after a partial exit, every launch of the stage up to its next outcome is for exactly the stores the summary asks to retry |
| `CoordinatorLoop.Activation.ExecuteStage` | scripts/run_full_managed_business_coordinator.mjs:642-736 | the code of one stage, skip and retry loop included, takes only steps of the state machine, touches no other stage, and returns COMPLETE exactly when it is recorded |
| `CoordinatorLoop.Activation.RetryLoop` | scripts/run_full_managed_business_coordinator.mjs:669-735 | every turn of the loop ends, and its local attempt number and pending stores are those recorded |
| `CoordinatorLoop.Activation.RunStages` | scripts/run_full_managed_business_coordinator.mjs:738-757 | stages run in order up to the first that is not COMPLETE; READY_TO_PUBLISH is stored exactly when all are |
| `CoordinatorLoop.RunCoordinator` | scripts/run_full_managed_business_coordinator.mjs:601-758 | whatever fails under an activation of a sequential plan, the state file it leaves is one the state machine can reach; a published run is left alone, and only a failed write, a killed process or arguments that cannot be built keep it from ending by itself |
| `CoordinatorLimits.OpenStageCanLaunch` | scripts/run_full_managed_business_coordinator.mjs:599-681 | with no activation running, a stage whose gates are open in the state file can be launched, once and as its next attempt |
| `CoordinatorLimits.CompletionIsFirstUnsaved` | scripts/run_full_managed_business_coordinator.mjs:687-702 | after the exit of a process its completion is in memory and not in the state file |
| `CoordinatorLimits.UnsavedCompletionIsRerun` | scripts/run_full_managed_business_coordinator.mjs:687-702 | for every plan, reachable state and stage: a launched stage complete in memory and not in the state file can, after a crash, be launched again, as an attempt after all others |
| `CoordinatorLimits.FirstStageRunsTwice` | scripts/run_full_managed_business_coordinator.mjs:687-702 | in every plan there is a run in which the first stage completes and is launched a second time |
| `FileReplace.FileSystem.WriteAll` | scripts/revoke_full_managed_store_login_batch.mjs:375-427 | a write passes through arbitrary partial content and may stay there |
| `FileReplace.FileSystem.Rename` | scripts/revoke_full_managed_store_login_batch.mjs:583-587 | a rename happens as a whole or not at all |
| `FileReplace.StillInBatch` | scripts/revoke_full_managed_store_login_batch.mjs:526-622 | writing beside the untouched batch file, or beside a synced backup, leaves the original held |
| `FileReplace.WriteExclusiveOwnedFile` | scripts/revoke_full_managed_store_login_batch.mjs:375-427 | only the named file is touched; success means exact bytes, owner and mode in a file that did not exist |
| `FileReplace.VerifyUnchanged` | scripts/revoke_full_managed_store_login_batch.mjs:438-447 | passing means the very file that was read, not merely its bytes |
| `FileReplace.VerifyExactFile` | scripts/revoke_full_managed_store_login_batch.mjs:449-456 | passing means the expected bytes, owner and mode, in a well-formed record; it fails only when one of them is wrong or on a fault |
| `FileReplace.RestoreInPlace` | scripts/revoke_full_managed_store_login_batch.mjs:458-472 | only the batch file is touched; success restores bytes, owner and mode |
| `FileReplace.RestoreOriginal` | scripts/revoke_full_managed_store_login_batch.mjs:474-519 | both rollback levels keep the backup and lose the original in no state; success means restored, failure needs a fault |
| `FileReplace.TryReplace` | scripts/revoke_full_managed_store_login_batch.mjs:556-591 | the flags always describe the files, and no state loses the original |
| `FileReplace.CleanUp` | scripts/revoke_full_managed_store_login_batch.mjs:585-617 | what was made before a failed replacement is removed again, or ARTIFACT_CLEANUP_FAILED says that it was not |
| `FileReplace.KeptSurvives` | scripts/revoke_full_managed_store_login_batch.mjs:526-622 | an original kept in the batch file until a synced backup holds it survives a loss of power in any state, though each path may come back as any version since the last directory sync |
| `FileReplace.ReplaceBatchAtomically` | scripts/revoke_full_managed_store_login_batch.mjs:526-622 | no state loses the original, nor could a loss of power; success is the replacement with the original in the backup, all synced; an error before the rename leaves every file as it was unless the code says otherwise; after a rollback only batch file and backup remain |
| `JsonKeys.ParseDecodes` | scripts/revoke_full_managed_store_login_batch.mjs:115-116 | parsing a quoted literal gives its decoded name |
| `JsonKeys.ShortEscapesByCodePoint` | scripts/revoke_full_managed_store_login_batch.mjs:115-116 | the short escapes stand for the code points RFC 8259 gives them |
| `JsonKeys.UnicodeEscapeReads` | scripts/revoke_full_managed_store_login_batch.mjs:115-116 | four hexadecimal digits, of either case each, stand for the code unit they spell |
| `JsonKeys.EndOfLiteral` | scripts/revoke_full_managed_store_login_batch.mjs:101-111 | the inner loop ends at the closing quote, past every escape |
| `JsonKeys.ScanLiteral` | scripts/revoke_full_managed_store_login_batch.mjs:100-120 | a literal is passed over whole and is a key exactly at depth 1 before a colon |
| `JsonKeys.ScanValue` | scripts/revoke_full_managed_store_login_batch.mjs:87-123 | a value adds no key, however deeply nested and whatever its strings hold |
| `JsonKeys.ScanTop` | scripts/revoke_full_managed_store_login_batch.mjs:87-123 | members at the top level add exactly their names, in order |
| `JsonKeys.ScannerAgreesWithJson` | scripts/revoke_full_managed_store_login_batch.mjs:87-123 | on every JSON object text the keys are exactly the decoded names of its own members, in order, duplicates kept |
| `JsonKeys.TopLevelObjectKeys` | scripts/revoke_full_managed_store_login_batch.mjs:87-123 | the loops compute what the scanner is specified to return, on every text |
| `ReportingGoods.Warehouse.InsertImportRun` | scripts/import_full_managed_reporting_goods.mjs:294-331 | a new run is recorded, an identical applied one accepted, any other refused |
| `ReportingGoods.Warehouse.UpsertReportingGoods` | scripts/import_full_managed_reporting_goods.mjs:333-384 | missing goods are added, and any existing one that differs fails the import |
| `ReportingGoods.Warehouse.ApplyAssignments` | scripts/import_full_managed_reporting_goods.mjs:386-465 | the two statements supersede and insert exactly the rows of the specification, and report their numbers |
| `ReportingGoods.Warehouse.Apply` | scripts/import_full_managed_reporting_goods.mjs:497-529 | the import takes effect as a whole or not at all; without a fault it fails only where its specification does |
| `ReportingGoods.Warehouse.Rollback` | scripts/import_full_managed_reporting_goods.mjs:531-590 | the rollback takes effect as a whole or not at all, and only for an applied run |
| `ReportingGoods.ImportByColumns` | scripts/import_full_managed_reporting_goods.mjs:294-384 | an import is refused for a changed or rolled-back run and for differing goods, under its own code; otherwise the run is recorded, the groups are stored, and other runs and goods stay |
| `ReportingGoods.AssignedGoodsAreStored` | scripts/import_full_managed_reporting_goods.mjs:330-384 | a valid import leaves each SKU with the goods its group describes |
| `ReportingGoods.RollbackByColumns` | scripts/import_full_managed_reporting_goods.mjs:531-590 | a rollback needs an applied run, marks it, and touches no other run and no goods |
| `ReportingHistory.VerifiedMeansInForce` | scripts/import_full_managed_reporting_goods.mjs:467-495 | counting the open rows finds every assignment in force exactly when each is |
| `ReportingHistory.ApplyKeepsInv` | scripts/import_full_managed_reporting_goods.mjs:386-495 | a committed import keeps one open row per SKU, the links of superseded rows, and a recorded run for every plan the table names |
| `ReportingHistory.RollbackKeepsInv` | scripts/import_full_managed_reporting_goods.mjs:531-590 | a committed rollback keeps them too, so reopening never violates the unique index |
| `ReportingHistory.HistoryKeepsInv` | scripts/import_full_managed_reporting_goods.mjs:386-590 | so does every history of imports and rollbacks, committed or not, which is all that the stack theorems assume of their database |
| `ReportingHistory.AtMostOneOpen` | db/migrations/0026_reporting_goods_mapping.sql:69-150 | in every reachable database a SKU has at most one open CONFIRMED assignment |
| `ReportingHistory.ImportTakesEffect` | scripts/import_full_managed_reporting_goods.mjs:497-529 | after a committed import its SKUs are mapped as it says and all others as before |
| `ReportingStack.FreshApplyVerifies` | scripts/import_full_managed_reporting_goods.mjs:386-495 | a manifest never used before always passes its own verification |
| `ReportingStack.RollbackUndoesApply` | scripts/import_full_managed_reporting_goods.mjs:531-590 | rolling back the fresh manifest applied last restores every earlier row |
| `ReportingStack.PopSucceeds` | scripts/import_full_managed_reporting_goods.mjs:568-575 | the manifest on top of the stack can always be rolled back |
| `ReportingStack.FreshPushSucceeds` | scripts/import_full_managed_reporting_goods.mjs:497-529 | importing a fresh manifest fails only over goods that differ |
| `ReportingStack.RollbackRestoresMapping` | scripts/import_full_managed_reporting_goods.mjs:531-590 | after any sequence of fresh imports and rollbacks of the last one, the mapping depends only on what is still applied |
| `History.LatestMeansNewest` | scripts/maintain_full_managed_history.mjs:82-97 | the latest batch is the one of its store, domain and subtype fetched last, the larger id deciding between equal times |
| `History.LatestExists` | scripts/maintain_full_managed_history.mjs:82-97 | every batch is the latest of its group or older than the latest one |
| `History.LatestSurvives` | scripts/maintain_full_managed_history.mjs:501-510 | pruning changes nothing about which batch is the latest of its group |
| `History.PruningKeepsReadPath` | scripts/maintain_full_managed_history.mjs:405-523 | the latest-batch query and all snapshots, warehouse rows and members reached through it are the same before and after |
| `History.PruningLeavesNoOrphans` | scripts/maintain_full_managed_history.mjs:438-510 | no warehouse row and no projection member is left without its parent |
| `History.PruningIsIdempotent` | scripts/maintain_full_managed_history.mjs:405-523 | a second run with the same cutoff deletes nothing more |
| `History.BatchesByColumns` | scripts/maintain_full_managed_history.mjs:485-510 | a batch goes exactly when it is older than the cutoff and not the newest of its store, domain and subtype |
| `History.SnapshotsByColumns` | scripts/maintain_full_managed_history.mjs:455-470 | a snapshot goes exactly when it is older than the cutoff and not of the fetch of the newest batch it is read through, inventory by kind |
| `History.ChildrenAndDaysByColumns` | scripts/maintain_full_managed_history.mjs:405-510 | warehouse rows and members go exactly with their parents, days exactly before the cutoff, and every day with detail keeps its summary |
| `History.NewestOfEachGroupStays` | scripts/maintain_full_managed_history.mjs:485-510 | for every batch stored before, one of its store, domain and subtype stays that was fetched no earlier |
| `History.OnlyTheUnreachedGo` | scripts/maintain_full_managed_history.mjs:405-523 | a row goes exactly when it is older than the cutoff and not reached; a day goes exactly when it is before the cutoff, and then its summary exists |
| `History.DeletedAsPlanned` | scripts/maintain_full_managed_history.mjs:325-385 | a run deletes exactly as many rows as its plan counted |
| `History.EqualPlansDeleteSameBatches` | scripts/maintain_full_managed_history.mjs:135-156 | databases with equal plans lose the same partitions and the same projection batches, and a member goes in one exactly when a member of the same batch goes in the other |
| `History.FingerprintPinsExactlyWhen` | scripts/maintain_full_managed_history.mjs:328-344 | fingerprints determine the candidate rows out of a fixed table exactly when no two of its rows share store and fetch batch |
| `History.InventoryPinnedExactlyWhen` | scripts/maintain_full_managed_history.mjs:328-350 | runs of equal plans delete the same inventory snapshots, for all databases over a table, exactly when no two rows of it older than the cutoff share store and fetch batch |
| `History.AdvicePinnedExactlyWhen` | scripts/maintain_full_managed_history.mjs:328-350 | the same for stock-advice snapshots |
| `History.WarehouseGoesWithParent` | scripts/maintain_full_managed_history.mjs:435-451 | a warehouse row is deleted exactly when its inventory snapshot is, though the statements differ |
| `History.Store.PruneSnapshots` | scripts/maintain_full_managed_history.mjs:438-470 | children first, no delete violates a foreign key, and the counts are the planned ones |
| `History.Store.PruneProjections` | scripts/maintain_full_managed_history.mjs:472-521 | the deletes happen between lifting and restoring the two append-only triggers |
| `History.Store.ExecutePlan` | scripts/maintain_full_managed_history.mjs:598-611 | committed states always have both triggers enabled and no orphans; nothing is committed, and PLAN_HASH_MISMATCH reported, unless the reviewed cutoff, partitions, counts, fingerprints and batch ids are those of the database; success means exactly those deletions, failure that nothing went, a lost commit answer excepted |
| `Utf8.RecodeKeepsExactlyWellFormed` | scripts/finalize_full_managed_authorization_receipt.mjs:724-727 | reading bytes as UTF-8 and writing them back keeps them exactly when they are well-formed |
| `Utf8.WellFormedMeansScalars` | scripts/finalize_full_managed_authorization_receipt.mjs:724-727 | well-formed bytes are exactly the encodings of texts of Unicode scalar values |
| `Finalize.UpdateOpenApiConfiguration` | scripts/finalize_full_managed_authorization_receipt.mjs:573-632 | it succeeds exactly when the store is unique and neither supplier nor key is bound elsewhere; the target gets its credentials, supplier and statuses column by column, alone is bound to them, and no other store changes |
| `Finalize.Finalizer.ApproveStore` | src/authorization/file-store.mjs:599-616 | the record is approved unless the mutation failed before its file was written; a failing lock release hides that it was |
| `Finalize.Finalizer.RollbackStoreApproval` | src/authorization/file-store.mjs:618-649 | the record returns to review only if it still is what the approval left |
| `Finalize.Finalizer.UndoAll` | scripts/finalize_full_managed_authorization_receipt.mjs:905-932 | each undo step runs from its flag, and failures are counted exactly |
| `Finalize.Finalizer.Finalize` | scripts/finalize_full_managed_authorization_receipt.mjs:884-941 | for every step that may fail, the three resources end as the case analysis says |
| `Finalize.SuccessAdvancesAll` | scripts/finalize_full_managed_authorization_receipt.mjs:884-905 | success means that configuration, approval and receipt have all advanced |
| `Finalize.RolledBackExactlyWhen` | scripts/finalize_full_managed_authorization_receipt.mjs:905-941 | FINALIZATION_TRANSACTION_FAILED means everything is as before exactly when the approval was not written behind a failing lock release and the old configuration was well-formed UTF-8, if it was replaced |
| `Finalize.MixturesAreReported` | scripts/finalize_full_managed_authorization_receipt.mjs:933-941 | any other mixture is reported as FINALIZATION_ROLLBACK_FAILED, those two cases excepted |
| `Finalize.UndoneIfUndoWorks` | scripts/finalize_full_managed_authorization_receipt.mjs:884-941 | a failure of any one step is undone completely when the undo steps work |
| `Finalize.ApprovalCanOutliveRollback` | src/authorization/file-store.mjs:243-261 | a run reported as rolled back can leave the approval in place |
| `Utf8.WellFormedPrefixStays` | scripts/finalize_full_managed_authorization_receipt.mjs:724-727 | a well-formed beginning is kept, whatever bytes follow |
| `Finalize.RestoredBytesCanDiffer` | scripts/finalize_full_managed_authorization_receipt.mjs:724-727 | a run reported as rolled back turns a byte 0xFF between any two well-formed parts of the configuration into U+FFFD |
| `Finalize.StoreNameCanDiffer` | scripts/finalize_full_managed_authorization_receipt.mjs:724-727 | such a configuration can be an object of one store, with the byte in the name of the store |
| `Backfill.BuildBackfillWindows` | scripts/backfill_full_managed_order_management_sessions.mjs:62-91 | it fails exactly on an invalid maximum, date or range; otherwise the windows tile the range |
| `Backfill.GatesMeanVerified` | scripts/backfill_full_managed_order_management_sessions.mjs:153-200 | the gates pass exactly when the snapshot has the pages asked for, each available, verified in all four respects and covering all stores |
| `Backfill.WindowsCoverRangeOnce` | scripts/backfill_full_managed_order_management_sessions.mjs:58-91 | every day of the range lies in exactly one window, and no other day in any |
| `Backfill.KeyIsIdentity` | scripts/backfill_full_managed_order_management_sessions.mjs:212 | keys tell (page, store, id) apart when pages are free of the separator and neither store code starts with the other and the separator |
| `Backfill.KeysIdentifyExactlyWhen` | scripts/backfill_full_managed_order_management_sessions.mjs:212 | over given pages and stores, keys are identities for all ids exactly when no store code starts with another one and the separator |
| `Backfill.RosterIsSeparable` | src/config/full-managed-stores.mjs:1-27 | the fixed roster is such a set of store codes |
| `Backfill.ConsistentMeansUnambiguous` | scripts/backfill_full_managed_order_management_sessions.mjs:202-228 | over such a set of stores, key conflicts are exactly conflicts of (page, store, id) |
| `Backfill.Merge.Put` | scripts/backfill_full_managed_order_management_sessions.mjs:211-218 | a new key is stored, an equal row merges, a different row under a known key is a conflict |
| `Backfill.MergeWindowRows` | scripts/backfill_full_managed_order_management_sessions.mjs:202-228 | it fails exactly when rows are missing or two fetched rows share a key and differ; otherwise its mapping is that of all fetched rows |
| `Backfill.MergeIgnoresWindowOrder` | scripts/backfill_full_managed_order_management_sessions.mjs:202-228 | permuting the windows changes neither success nor the mapping |
| `Backfill.MergeOnce` | scripts/backfill_full_managed_order_management_sessions.mjs:400-414 | it succeeds exactly when all pages have rows and every key is new to the windows and to the fetch itself |
| `Backfill.BuildFinalPages` | scripts/backfill_full_managed_order_management_sessions.mjs:230-267 | each page holds the rows of the keys that start with it, in merge order |
| `Backfill.EachRowOnOnePage` | scripts/backfill_full_managed_order_management_sessions.mjs:230-267 | every merged row is on exactly one page, once |
| `Backfill.RunBackfill` | scripts/backfill_full_managed_order_management_sessions.mjs:371-419 | it succeeds exactly when the gates pass, rows are present, no two windowed rows conflict, once-only keys are new and every row is valid; each error names the condition that fails; on success every page holds exactly the rows fetched for it |

## Left out

- Identity and session plumbing of the cutover: a system is a number, a session a backend and a transport; identity fingerprints, pools, SSH, locks and timeouts are not modelled.
- Real SQL of the cutover: every statement is its effect on a table; column types, JSON canonicalisation and the timestamp format check are not modelled, and timestamps compare as texts.
- Sequence increments of the cutover, which are always 1.
- Tables.ReceiptUpdateNeeded: the failure on a badly formatted timestamp is not modelled; timestamps are texts in the fixed format.
- Snapshot.ValidateSnapshotMeansSound: the identity checks and the other readiness counts of the validation are not modelled.
- Snapshot.SnapshotEndpoint: an endpoint's identity is a number, and readiness is four counts.
- PrepareStream.CalculatePreparePlan: the dependency checks on planned rows (`DependencyAccumulator`, `validateDependencyBatch`), which can also fail it, are not modelled; references to stores and probes are part of a row's content.
- Reverse.RunPlan: the same dependency checks are not modelled.
- PrepareRun.RunPrepareForward: a failure of the dependency or identity checks is not among the listed ones.
- ReverseRun.RunReverse: a failure of the dependency or identity checks is not among the listed ones.
- Readiness counts of the cutover: reduced to unfinished jobs and directives and the sizes of the two side tables.
- Progress events, argument parsing, identity inspection and the command lines of all scripts.
- Framing.Sha256: the identity stands for a collision-free hash.
- Endpoint.PgEndpoint.BeginFrozen: the schema contract and the identity are not validated, and whether a system's pools hand out used backends is a constant of the system.
- FileReplace.FileSystem.Rename: a rename that takes effect and still reports failure is not modelled; the script would then remove the backup.
- FileReplace.FileSystem.SyncDirectory: it makes all earlier changes durable, file contents included; file systems without directory syncs, which the script puts up with, are not modelled.
- FileReplace.FileSystem.ReadBatchInput: several reads are one step, as no other writer is modelled, and the record schema is a parameter.
- JsonKeys.ScannerAgreesWithJson: surrogate pairs and characters beyond the basic plane are single characters; numbers and literal names are any text without quotes, colons and curly brackets.
- Coordinator.Next: one activation runs at a time; terminal warnings, details and time stamps in the state file are not modelled.
- CoordinatorLoop.Activation.RetryLoop: a process takes at least one millisecond of the clock.
- CoordinatorLoop.RunCoordinator: the stages of a parallel plan, which interleave, are modelled as events only.
- StageResult.Classify: malformed summaries that make the classification throw are not modelled.
- StageResult.PartialExitRetriesExactly: it speaks of well-formed summaries, for the same reason.
- CoordinatorPlan.BuildPlan: dates are given; lanes, locks and environments are not modelled.
- ReportingGoods.Warehouse.Apply: the SKU scope checks and the execution hash are one parameter; names and texts of the manifest are not modelled.
- History.PlanOf: the plan is compared itself, not its hash; a fingerprint is the number of rows of each pair, which stands for the ordered listing that is hashed. Retention days, the reclaim flag and the schema version, which the hash also covers, are not modelled.
- History.Summarise: `ops.refresh_reconciliation_daily` is not part of this model; a summary is stood for by the detail it is computed from, and forward partitions are not created.
- History maintenance window, advisory lock, ownership probe and VACUUM.
- Finalize.Finalizer.Finalize: it starts with the receipt isolated; the checks before that, the identity query and the stale-lock handling of both locks are not modelled, nor is the release of the outer finalization lock, which can report an error after everything advanced.
- Finalize.UpdateOpenApiConfiguration: the validation of the whole configuration and its JSON text are not modelled.
- Backfill.BuildFinalPages: the row contract is a parameter; page metadata, audit parts and the merge over an existing snapshot are not modelled.
- Backfill.KeyOf: ids are texts; a number and its decimal text are one id here as in the key.
