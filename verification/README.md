# Verification of the release, admission and ingestion logic

A Dafny model of the parts of the system where one small mistake would be costly, with proofs about
every run. `dafny verify dfyconfig.toml` checks all of it.

## What is modelled

**Release, snapshots and rollback** (`SnapshotRegistry`, `SnapshotRuns`, `Serving`, `ServingInvariant`,
`ServingTables`, `ServingRuns`, `Redelivery`, `Coverage`, `Exclusion`, `ExclusionRuns`, `IndexModels`,
`Recovery`). `Serving.World` is the database: the release row, the snapshot table, runs, the index catalog,
projects, videos, chunks, vectors, reindex items, ingests that have read their target and not stored yet, and
re-embedding requests. Every transaction is one step on it: opening a candidate, gated cutover, rollback
request, reading an ingest target, storing chunks, queueing and processing reindex items, cataloguing,
re-embedding, recovery scan, upload, failure, deletion and purge. The results hold for every sequence of these
steps.

- Each outcome of a request, opening, cutover, ingest, queueing and scan comes about exactly for the rows that
  `ServingTables` names, and changes exactly the rows it says.
- The snapshot table is a stack although it only moves statuses and appends rows.
- Cutovers and rollbacks undo each other one for one, and an open candidate stays alone.
- No gated cutover drops a ready chunk out of the indexes that serve.
- A gated cutover leaves the tables so that a rollback excludes every project that depends on the index it leaves,
  whatever happened before that cutover.
- For each kind of step that can break either of these the exact condition is proved, and for a rollback the exact
  condition on the tables when it starts.
- A rollback request delivered again and again completes at most one rollback (two, if its time carries an
  offset from UTC), and one more for each switch time that is used again.
- An index never holds vectors of two models.
- Recovery serves a project again only when it is fully searchable, and it gets there.

`Stores`, `ReindexStore`, `Transitions`, `Reindexing` and `VideoReembed` are the classes that do this
statement by statement on a `Database` object. Each method is proved to make the corresponding step,
with the same outcome in every branch.

**Admission to the embedding endpoint** (`Admission`, `AdmissionFairness`, `AdmissionController`,
`RequestLeases`). The state machine takes every section under the lock, and every wake-up, timeout,
cancellation and release outside it, as one step, so its runs are the interleavings of all coroutines.
The controller, entries and leases are classes tied to it.

**Run slots** (`RunSlots`), **transcripts** (`TranscriptWords`, `Segments`, `LongAudio`, `Chunking`),
**paging and cursors** (`Paging`, `Cursor`), **datasets** (`Materializer`) and **ranking metrics**
(`RankingMetrics`) are small cores of their own.

## What turned out not to hold

Each of these is the behaviour of the code. Each has a concrete input that shows it (named first) and its exact
condition, or for redelivery a bound that the input reaches. The runs are in `TwicePopped`, `LostChunks`,
`MissedProject` and `RecoveredProject`.

- `_same_datetime` compares instants and then clock digits without their offsets
  (services/feedback-loop-pipeline/src/release/rollback.py:186-191). A request whose time has an offset
  other than zero therefore matches two switches. The redelivery bound is one rollback per pair for UTC or
  naive times, two in general (`OnePairPopsTwice`; `NamesOneSwitchIff`, `RedeliveryPopsAtMostOnce`,
  `RedeliveryPopsAtMostTwice`).
- `run.cutover_time or now` (services/feedback-loop-pipeline/src/release/transition.py:238) can reuse an old
  capture time, and then the next rollback target is not the one the chain of links names
  (`ReusedCaptureTimeSkipsARelease`; `NextPriorFollowsChainIff`). The same time becomes `switched_at` again, so a
  delivered pair can match a second switch even in UTC (`ReusedSwitchTimePopsTwice`); each such switch allows one
  rollback more, and no more than that (`RedeliveryPopsAtMostOnce`).
- An ingest reads its target long before it stores
  (services/pipeline-worker/src/services/pipeline_orchestrator.py:153-177). It loses chunks exactly when
  that index is live but out of use by then, or when it makes a video ready again whose older chunks no serving
  index holds, which a failed re-ingest of a ready video makes possible
  (services/pipeline-worker/src/infra/db/video_repository.py:262-307; `LateIngestLosesItsChunk`,
  `ReingestLosesOlderChunk`; `PersistLosesNothingIff`). A re-embedding delivered late has a condition of the same kind
  (`LateReembeddingLosesChunk`; `ReembedLosesNothingIff`).
- A rollback excludes projects by the model their chunks were stored under
  (services/feedback-loop-pipeline/src/infra/db/stores.py:510-537), which reindexing and re-embedding do not change.
  So it can leave a project serving whose chunks are only in the index it abandons: after a late ingest
  (`RollbackMissesAProject`), or when it follows another rollback and the recovery from it
  (`SecondRollbackMissesIt`). `RollbackExcludesIff` and `ContinuedRollbackExcludesIff` are exact for one rollback,
  `StepKeepsExcludableIff` and `RunKeepsExcludableIff` for the steps and runs before it.
- Two different events with the same id and the same latest time can make the dataset depend on the input order
  (`OrderCanMatter`), but need not (`TiesNeedNotMatter`); `DedupeIsCanonicalIff` is exact for which events are kept and
  `MaterializeIsCanonicalIff` for the dataset.
- A word longer than the overlap can fall between two parts (`LongWordIsDropped`; `SplitThenMergeIff`).
- A reindex item fails its consistency check when the target index already holds another chunk of the video,
  though all vectors were written and the gate opens (`ItemBesideOtherChunkFails`; `CountDecides`).

## Assumptions

- A transaction is atomic, and its clock reading is later than the last switch. For a cutover the capture time
  is later than all captures on the stack; where it is not, see above.
- A new candidate's index is not catalogued, and nothing was written or is under way for it. Chunk and snapshot ids
  are new. Only work that was asked for is done: items embed chunks of their source index, re-embeddings answer a
  request. `OneModelPerIndex` and `DefaultNamesAgree` need only the last of these.
- The redelivery bounds assume nothing: a switch at a time used before is counted, and `RedeliveryPopsAtMostOnce` says
  that the assumption on the clock leaves none to count.
- The results on lost chunks and on exclusion assume nothing more; their conditions on the steps of a run are exact.
  `IngestMayOverlapOneSwitch`, `TimelyIsHarmless` and `TimelySpares` say that an ingest meets both if serving switched
  once at most since it read its target and the video was ready or has no older chunk.
- Recovery converges while ingests go to the active index and make no video ready again over older chunks missing there.
- The gate is wired into the cutover, as services/feedback-loop-pipeline/src/bootstrap.py:162-171 does.
- The endpoint's replies are arbitrary. Where a property needs it, the lemma assumes that a reply of the right
  length holds the embedding of each text at its place (`Honest`), or that replies have the right shape (`Answers`).
- Cleanup after a cancelled wait is not itself cancelled.
- Times are integers on one clock, ids are numbered in their order, and JSON, sentence splitting, token counts
  and the hash that orders random negatives are functions given to the model.

## Model

| member | source | states |
|---|---|---|
| `Admission.StepKeepsInv` | services/managed-embedding-endpoint/src/core/admission_control.py:141-242 | Every locked section, wake-up, timeout, cancellation and release keeps: running count = unreleased slot leases + releases under way + grants not yet picked up; queues hold exactly the waiting entries; a free slot means empty queues |
| `Admission.SlotsConservedOverRuns` | services/managed-embedding-endpoint/src/core/admission_control.py:141-230 | Over every interleaving from the start the running count is conserved and within the limit, no slot idles beside a waiter, and the "released more than once" error cannot occur |
| `Admission.NothingLeaks` | services/managed-embedding-endpoint/src/core/admission_control.py:92-96 | When all leases are released and all waiters are past their wait, whatever raced, no slot is taken |
| `Admission.AcquireOutcomes` | services/managed-embedding-endpoint/src/core/admission_control.py:141-201 | An acquire or a try issues a lease exactly when a slot is free and nobody waits; else an acquire queues a waiting entry last for its workload, and there is no queue for legacy calls |
| `AdmissionFairness.ReleaseGrantsHead` | services/managed-embedding-endpoint/src/core/admission_control.py:216-230 | With waiters present a release hands its slot to exactly one entry, the head of the search queue or else of the video queue |
| `AdmissionFairness.TicketsSettle` | services/managed-embedding-endpoint/src/core/admission_control.py:190-210 | Nothing re-enters a queue: an entry that was granted or cancelled stays so |
| `AdmissionFairness.GrantsInOrder` | services/managed-embedding-endpoint/src/core/admission_control.py:223-242 | Only a slot release grants a waiting entry, and then the oldest search entry, or the oldest video entry when no search waits |
| `AdmissionFairness.SearchMovesUp` | services/managed-embedding-endpoint/src/core/admission_control.py:203-230 | No step moves a search waiter back, and every slot release moves it up |
| `AdmissionFairness.VideoMovesUp` | services/managed-embedding-endpoint/src/core/admission_control.py:203-230 | The distance of a video waiter (its position plus the searches waiting) grows only by search arrivals and shrinks at every slot release |
| `AdmissionFairness.SearchWaitIsBounded` | services/managed-embedding-endpoint/src/core/admission_control.py:223-242 | A search waiter with p ahead of it is granted or withdrawn within p + 1 slot releases |
| `AdmissionFairness.VideoWaitIsBounded` | services/managed-embedding-endpoint/src/core/admission_control.py:223-242 | A video waiter is granted or withdrawn within p + 1 releases plus the searches waiting and arriving |
| `AdmissionFairness.GrantsAreFifo` | services/managed-embedding-endpoint/src/core/admission_control.py:223-242 | Within a workload the later of two waiters is not granted while the earlier one still waits |
| `AdmissionFairness.VideoCanStarve` | services/managed-embedding-endpoint/src/core/admission_control.py:232-242 | The search arrivals in the video bound are needed: for every n a run with n releases leaves a video waiter waiting |
| `AdmissionController.SlotLease.Release` | services/managed-embedding-endpoint/src/core/admission_control.py:92-96 | The first release starts and finishes one slot release, every further one changes nothing |
| `AdmissionController.Controller.AcquireSlot` | services/managed-embedding-endpoint/src/core/admission_control.py:141-148 | The first locked section of an acquire: an immediate lease exactly when fewer slots are taken than the limit and both queues are empty; else a queued entry, or a failed lookup for a workload without a queue |
| `AdmissionController.Controller.TryAcquireLegacy` | services/managed-embedding-endpoint/src/core/admission_control.py:163-168 | A lease exactly when fewer slots are taken than the limit and both queues are empty |
| `AdmissionController.Controller.EnqueueLocked` | services/managed-embedding-endpoint/src/core/admission_control.py:190-201 | The new waiting entry goes to the end of its workload's queue |
| `AdmissionController.Controller.Resume` | services/managed-embedding-endpoint/src/core/admission_control.py:150-161 | A granted waiter that wakes owns the slot that was counted for it |
| `AdmissionController.Controller.Interrupt` | services/managed-embedding-endpoint/src/core/admission_control.py:150-154 | A timeout or a cancellation that reaches a waiter leaves queues, counts and its entry alone until it withdraws |
| `AdmissionController.Controller.WithdrawEntry` | services/managed-embedding-endpoint/src/core/admission_control.py:203-210 | A waiting entry is cancelled and leaves its queue; true exactly when it had been granted, and then one release is owed |
| `AdmissionController.Controller.ReleaseSlot` | services/managed-embedding-endpoint/src/core/admission_control.py:216-221 | One slot fewer is counted, then waiters are granted; the error branch is unreachable while a release is owed |
| `AdmissionController.Controller.GrantWaitersLocked` | services/managed-embedding-endpoint/src/core/admission_control.py:223-230 | Grants heads until the slots or the waiters run out |
| `AdmissionController.Controller.NextWaiterLocked` | services/managed-embedding-endpoint/src/core/admission_control.py:232-242 | Takes the head of the search queue, else of the video queue |
| `RequestLeases.RequestController.TryAcquireRequest` | services/managed-embedding-endpoint/src/core/admission_control.py:131-139 | Admits a request exactly when fewer than the workload's limit hold leases; the counts stay the numbers of unreleased leases |
| `RequestLeases.RequestLease.Release` | services/managed-embedding-endpoint/src/core/admission_control.py:62-66 | Releasing twice counts once |
| `RequestLeases.QueuesAreBounded` | services/managed-embedding-endpoint/src/core/admission_control.py:131-148 | If every waiter holds a request lease of its own, a queue is no longer than the workload's unreleased leases |
| `SnapshotRegistry.FoundInStack` | services/feedback-loop-pipeline/src/infra/db/snapshot_registry.py:15-19 | The ACTIVE and PREVIOUS_STABLE rows are the two topmost live rows |
| `SnapshotRegistry.CutoverPushes` | services/feedback-loop-pipeline/src/infra/db/snapshot_registry.py:21-42 | A cutover pushes its release on the live rows, demotes those below by one place, and links to the release that was active |
| `SnapshotRegistry.PickInStack` | services/feedback-loop-pipeline/src/infra/db/snapshot_registry.py:47-54 | What the "latest superseded" query may return, ties included: exactly the latest-captured rows below the two topmost |
| `SnapshotRegistry.RollbackPops` | services/feedback-loop-pipeline/src/infra/db/snapshot_registry.py:56-74 | If the query returns the row the restored release links to, a rollback pops the stack |
| `SnapshotRegistry.NextPriorFollowsChainIff` | services/feedback-loop-pipeline/src/infra/db/snapshot_registry.py:47-74 | The query follows the previous_snapshot_id chain, whatever it does about ties, exactly when that release was captured after every older live one |
| `SnapshotRegistry.CutoverOnStack` | services/feedback-loop-pipeline/src/infra/db/snapshot_registry.py:21-42 | With captures in order a cutover pushes and captures stay in order |
| `SnapshotRegistry.RollbackOnStack` | services/feedback-loop-pipeline/src/infra/db/snapshot_registry.py:56-74 | With captures in order a rollback pops, and it fails exactly when nothing lies below the top |
| `SnapshotRuns.TableRefinesStack` | services/feedback-loop-pipeline/src/infra/db/snapshot_registry.py:21-74 | Over every run of cutovers and rollbacks with captures in order, the table is a stack of releases |
| `SnapshotRuns.ActivePairIsTop` | services/feedback-loop-pipeline/src/infra/db/snapshot_registry.py:15-19 | The active model and index are the top of the stack |
| `SnapshotRuns.RollbacksUndoCutovers` | services/feedback-loop-pipeline/src/infra/db/snapshot_registry.py:21-74 | k cutovers followed by k rollbacks restore the stack and the active pair |
| `SnapshotRuns.TargetIsLinked` | services/feedback-loop-pipeline/src/infra/db/snapshot_registry.py:44-45 | The rollback target is the release the active one links to |
| `SnapshotRuns.ReusedCaptureTimeSkipsARelease` | services/feedback-loop-pipeline/src/release/transition.py:238 | A cutover that reuses an old cutover_time breaks the chain: after cutovers captured at 10, 5, 20 and 30 a rollback makes the wrong release the next target |
| `ServingInvariant.TargetBelowTop` | services/feedback-loop-pipeline/src/infra/db/stores.py:230-236 | The rollback target is the release below the top of the stack, if there is one |
| `ServingInvariant.StepKeepsInv` | services/feedback-loop-pipeline/src/infra/db/stores.py:182-264 | Every step of the protocol keeps: the release row is the top of the stack, its previous index is the one below, candidate fields are set exactly while a candidate is open, an open candidate's index is untouched, vectors belong to stored chunks, items read live indexes |
| `ServingInvariant.CutoverSwitches` | services/feedback-loop-pipeline/src/infra/db/stores.py:182-219 | A cutover that goes through makes the candidate pair active, leaves the stack below as it was, and makes the pair that was active the rollback target |
| `ServingInvariant.RollbackRestoresIff` | services/feedback-loop-pipeline/src/release/rollback.py:92-159 | A request completes a rollback exactly when it has the supported version, a release lies below, a rollback is under way or the request names the active model, another than the one below, and the instant or the clock digits of the last switch, the model is ready, and the index below is catalogued, not deleted and holds a vector |
| `ServingInvariant.RollbackRestores` | services/feedback-loop-pipeline/src/release/rollback.py:142-159 | After a completed rollback the release below serves and the stack is popped; after any other request serving is unchanged |
| `ServingInvariant.RollbackUndoesCutover` | services/feedback-loop-pipeline/src/release/rollback.py:92-159 | A rollback undoes the last cutover: whatever other steps came between, the pair that was active before it serves again and the stack is as it was |
| `ServingInvariant.RunKeepsInv` | services/feedback-loop-pipeline/src/release/rollback.py:92-159 | In every run ROLLBACK_PREPARING always has a release to restore |
| `ServingTables.RollbackOutcomes` | services/feedback-loop-pipeline/src/release/rollback.py:92-159 | Over the rows, each outcome of a request with a target exactly when it comes about: unsupported version, already restored, invalid state, stale request, target model not ready, index blocked (not catalogued, deleted or empty) and restored |
| `ServingTables.RollbackWrites` | services/feedback-loop-pipeline/src/infra/db/stores.py:238-264 | A completed rollback puts the target's pair and the time in the release row; any other outcome leaves the active pair, the switch time and the snapshots, and marks a rollback under way exactly when the request was admitted |
| `ServingTables.NothingToRestore` | services/feedback-loop-pipeline/src/release/rollback.py:101-109 | Without a release row, or without a target, a request changes nothing and says so |
| `ServingTables.OpenOutcomes` | services/feedback-loop-pipeline/src/release/transition.py:94-225 | A candidate opens exactly when its run is ready for release and names a model and the release is stable, is found open exactly when the open candidate has its model and index, and otherwise nothing changes; with the fields written |
| `ServingTables.CutoverOutcomes` | services/feedback-loop-pipeline/src/release/transition.py:227-327 | Over the rows, each outcome of a cutover exactly: refused unless the run names the open candidate, blocked while its model is not ready, blocked while some ready video has a vector in another live index whose chunk is not in the active one, and else cut over |
| `ServingTables.CutoverWrites` | services/feedback-loop-pipeline/src/release/transition.py:227-370 | A cutover makes the candidate active and the active pair the previous one, ends the run, and records the run's cutover time or else now with an appended snapshot; one that does not go through changes nothing |
| `ServingTables.IngestReplaces` | services/pipeline-worker/src/infra/db/artifact_repository.py:227-246 | Exactly the chunks of the same video, STT model and embedding model leave, with all their vectors; every other chunk and vector stays as it was |
| `ServingTables.IngestAdds` | services/pipeline-worker/src/infra/db/artifact_repository.py:248-306 | New are the chunks of the ingest with its text and models, each with its one vector in the index and under the model of the job, and that the video is ready |
| `ServingTables.IngestStoresNothing` | services/pipeline-worker/src/infra/db/artifact_repository.py:210-230 | An ingest without chunks, or for a video that is gone or being deleted, leaves all tables |
| `ServingTables.IngestReads` | services/pipeline-worker/src/infra/db/release_repository.py:26-51 | An ingest reads the active pair, and none while a rollback is being prepared |
| `ServingTables.QueuedIff` | services/feedback-loop-pipeline/src/infra/db/legacy_reindex_store.py:342-426 | An item becomes pending exactly when the ready video has a vector in a live source index, other than the active and candidate one, whose chunk is not in the active one, and it has no unfinished item there |
| `ServingTables.ReembedWrites` | services/feedback-loop-pipeline/src/release/video_reembed.py:95-120 | A re-embedding writes its vectors for the video under the model and into the index it asks for, unless the video is gone, and nothing else |
| `ServingTables.ReindexWrites` | services/feedback-loop-pipeline/src/release/legacy_reindex.py:330-374 | An item writes its vectors for its video into its target under the model it was queued for, ends with its status, and changes nothing else |
| `ServingTables.Catalogued` | services/feedback-loop-pipeline/src/infra/db/legacy_reindex_store.py:62-84 | The pairs of the release are catalogued with their models and the dimension; marks of deletion and other rows stay |
| `ServingTables.ScanAsksFor` | services/feedback-loop-pipeline/src/infra/db/stores.py:633-657 | A scan sends a request exactly for each ready video of an excluded project that has no chunk, or a chunk without a vector of the active model in the active index, and for the active pair |
| `ServingTables.ScanServes` | services/feedback-loop-pipeline/src/infra/db/stores.py:539-631 | A scan of a stable release serves an excluded project again exactly when it has a ready video and each of its ready videos has chunks, all with vectors of the active model in the active index |
| `ServingTables.PurgeTakes` | services/pipeline-worker/src/infra/db/artifact_repository.py:333-349 | A purge takes exactly the video's chunks, all their vectors, and its items |
| `ServingTables.VideoStatuses` | services/pipeline-worker/src/infra/db/video_repository.py:262-307 | A failure leaves a video that is being deleted as it is, and else makes it not ready |
| `Redelivery.NamesOneSwitchIff` | services/feedback-loop-pipeline/src/release/rollback.py:186-191 | A request time matches one stored switch only, exactly when it is in UTC or carries no offset: a time with another offset matches its instant and its clock digits |
| `Redelivery.RollbackSwitches` | services/feedback-loop-pipeline/src/release/rollback.py:92-159 | A request starts a rollback only if it names the last switch; a completed one makes its own time the last switch |
| `Redelivery.StepUsesUpAnInstant` | services/feedback-loop-pipeline/src/release/rollback.py:92-159 | What every step, allowed or not, does to the account of the bound below: a completed rollback is paid for by an instant no longer nameable or by a switch time used again |
| `Redelivery.CompletionsAreBounded` | services/feedback-loop-pipeline/src/release/rollback.py:92-159 | In every run from any tables, the completed rollbacks, and one under way at the end, are no more than the named instants serving was not yet switched at, the switches at a time used before, and one that can start at once |
| `Redelivery.RedeliveryPopsAtMostOnce` | services/feedback-loop-pipeline/src/release/rollback.py:92-159 | With times in UTC or without offset, in every run: no more rollbacks complete than distinct (expected model, expected switch time) pairs were delivered, plus one for each switch at a time serving was switched at before, plus one already under way; while the clock moves on there is no such switch |
| `Redelivery.RedeliveryPopsAtMostTwice` | services/feedback-loop-pipeline/src/release/rollback.py:186-191 | With any offsets, at most two per pair, with the same additions |
| `TwicePopped.OnePairPopsTwice` | services/feedback-loop-pipeline/src/release/rollback.py:186-191 | The factor of two is needed: a concrete allowed run in which one pair completes two rollbacks |
| `TwicePopped.ReusedSwitchTimePopsTwice` | services/feedback-loop-pipeline/src/release/transition.py:238 | The addition for a time used again is needed: from tables that satisfy the invariant, by steps all allowed but for the one reused cutover time, one pair in UTC completes two rollbacks with one repeat |
| `Coverage.VectorsLeaveWithChunks` | services/pipeline-worker/src/infra/db/artifact_repository.py:231-245 | No step takes a vector from a chunk that stays |
| `Coverage.GateOpen` | services/feedback-loop-pipeline/src/infra/db/legacy_reindex_store.py:313-377 | An open gate means that every ready chunk of a live index outside the active and candidate ones is in the active one |
| `Coverage.CutoverLosesNothing` | services/feedback-loop-pipeline/src/release/transition.py:227-255 | A gated cutover keeps every ready chunk of a live index in the active, previous or candidate index |
| `Coverage.PersistLosesNothingIff` | services/pipeline-worker/src/infra/db/artifact_repository.py:210-306 | Exactly when an ingest loses no chunk: the index it stores into is in use or not live, and it does not make a video ready again over older chunks that no serving index holds |
| `Coverage.ReembedLosesNothingIff` | services/feedback-loop-pipeline/src/release/video_reembed.py:43-113 | Exactly when a re-embedding loses no chunk: the index it writes to is in use or not live, or each ready chunk it writes is in a serving index already |
| `LostChunks.LateIngestLosesItsChunk` | services/pipeline-worker/src/services/pipeline_orchestrator.py:153-177 | A concrete allowed run with two cutovers between an ingest's reading its target and storing, after which its ready chunk is in no serving index |
| `LostChunks.ReingestLosesOlderChunk` | services/pipeline-worker/src/infra/db/video_repository.py:262-307 | A concrete allowed run in which a failed re-ingest hides a ready video from the gate of two cutovers and a later one makes it ready over a chunk that no serving index holds |
| `LostChunks.LateReembeddingLosesChunk` | services/feedback-loop-pipeline/src/release/recovery.py:38-59 | A concrete allowed run with two cutovers between a scan's request and its delivery, after which the only live index that holds the chunk is one that does not serve |
| `Coverage.StepLosesNothingIff` | services/feedback-loop-pipeline/src/infra/db/legacy_reindex_store.py:101-158 | Every step but a rollback keeps every ready chunk of a live index in a serving index, except that ingests and re-embeddings do so exactly under the conditions above |
| `Coverage.CutoversLoseNothing` | services/feedback-loop-pipeline/src/infra/db/legacy_reindex_store.py:101-158 | Over every run of opens, gated cutovers, reindexing, ingests, deletions and recoveries short of a rollback, no ready chunk of a live index is ever without a serving index, exactly when the run's ingests and re-embeddings meet their conditions |
| `Coverage.IngestMayOverlapOneSwitch` | services/pipeline-worker/src/infra/db/release_repository.py:26-51 | The target an ingest read is still in use after any run short of a rollback in which serving switched once at most |
| `Coverage.TimelyIsHarmless` | services/pipeline-worker/src/infra/db/artifact_repository.py:210-306 | An ingest into a target still in use, of a ready video or of one without older chunks, meets its condition |
| `Exclusion.CutoverFillsTarget` | services/feedback-loop-pipeline/src/release/transition.py:227-255 | Right after a gated cutover, whatever happened before, the new rollback target's index holds every ready chunk in service |
| `Exclusion.RollbackExcludesIff` | services/feedback-loop-pipeline/src/release/rollback.py:127-159 | Exactly when a rollback that starts and restores in one request leaves no servable project with a ready chunk in a live index, or in the index left behind, that is missing from the index restored: before it, every ready chunk in service of a servable project that has no chunk stored under the active model is in the target's index |
| `Exclusion.ContinuedRollbackExcludesIff` | services/feedback-loop-pipeline/src/release/rollback.py:114-120 | The same for a rollback restored by a later request: every ready chunk in service of a project that still serves is in the target's index by then |
| `Exclusion.RollbackExcludesExactly` | services/feedback-loop-pipeline/src/infra/db/stores.py:510-537 | A request that starts a rollback excludes, beside those that were, exactly the projects with a chunk stored under the model it leaves; any other request excludes none |
| `ExclusionRuns.PersistKeepsIff` | services/pipeline-worker/src/infra/db/artifact_repository.py:210-306 | Exactly when an ingest keeps that condition: for a project a rollback would leave serving, what the active model did not embed is not stored into a serving index other than the target's, and no video gets ready again over older chunks missing there |
| `ExclusionRuns.ReembedKeepsIff` | services/feedback-loop-pipeline/src/release/video_reembed.py:43-113 | Exactly when a re-embedding does: it writes to the target's index or to one that does not serve, or the ready chunks it writes for such a project are in the target's index already |
| `ExclusionRuns.PurgeKeepsIff` | services/pipeline-worker/src/infra/db/artifact_repository.py:333-349 | Exactly when a purge does: no project with ready chunks missing from the target's index loses the last chunk for which a rollback would exclude it |
| `ExclusionRuns.RecoveryKeepsIff` | services/feedback-loop-pipeline/src/infra/db/stores.py:539-631 | Exactly when a recovery scan does: no project with ready chunks missing from the target's index, and nothing stored under the active model, is served again |
| `ExclusionRuns.StepKeepsExcludableIff` | services/feedback-loop-pipeline/src/infra/db/stores.py:510-537 | A gated cutover establishes the condition from any state; every other step but a rollback keeps it, except that ingests, re-embeddings, purges and scans do so exactly under the conditions above |
| `ExclusionRuns.RunKeepsExcludableIff` | services/feedback-loop-pipeline/src/infra/db/stores.py:510-537 | It holds at every point of a run short of a rollback exactly when all steps of the run meet their conditions |
| `ExclusionRuns.TimelySpares` | services/pipeline-worker/src/infra/db/artifact_repository.py:210-306 | An ingest into a target still in use, of a ready video or of one without older chunks, meets its condition |
| `ExclusionRuns.RollbackAfterCutoverExcludes` | services/feedback-loop-pipeline/src/release/rollback.py:127-159 | For the first rollback after any gated cutover in any run, whatever happened before the cutover: it excludes every project it has to exactly when the condition holds when it starts, and the condition holds all along exactly when the steps since the cutover meet theirs |
| `MissedProject.RollbackMissesAProject` | services/pipeline-worker/src/services/pipeline_orchestrator.py:153-177 | A concrete allowed run from a sound start in which a late ingest's chunk is reindexed into the active index only, and the rollback restores at once and leaves its project serving without it |
| `RecoveredProject.SecondRollbackMissesIt` | services/feedback-loop-pipeline/src/release/video_reembed.py:43-113 | A concrete allowed run without late work: a rollback excludes a project, the scan and re-embedding bring it back, and a second rollback leaves it serving although the index restored lacks its chunk |
| `IndexModels.StepStamps` | services/feedback-loop-pipeline/src/release/transition.py:94-225 | No step pairs an index with a second model, in releases, snapshots, catalog, items, ingests, requests or vectors, unless it opens a candidate under a name that already means another model |
| `IndexModels.OneModelPerIndex` | services/feedback-loop-pipeline/src/release/transition.py:94-225 | If no index name is given to a second model, every index holds vectors of one model only, in every run |
| `IndexModels.DefaultNamesAgree` | services/feedback-loop-pipeline/src/release/transition.py:66-67 | When runs leave the name of their index to the program, that needs no assumption: the default names are made from the model |
| `Recovery.ScanReentersIff` | services/feedback-loop-pipeline/src/infra/db/stores.py:539-631 | A scan serves an excluded project again exactly when it has a ready video, all its ready videos have chunks, and all of these are in the active index |
| `Recovery.ReentryIsSafe` | services/feedback-loop-pipeline/src/infra/db/stores.py:539-631 | No step at all serves an excluded project again with a ready chunk missing from the active index |
| `Recovery.ScanDispatchesMissing` | services/feedback-loop-pipeline/src/release/recovery.py:38-58 | After a scan only videos it asked to re-embed have ready chunks missing |
| `Recovery.RecoveryConverges` | services/feedback-loop-pipeline/src/bootstrap.py:369-397 | If all re-embeddings a scan asks for succeed while serving does not switch, the next scan serves exactly the excluded projects with a ready video whose ready videos all have chunks |
| `Stores.ModelSnapshotStore.RecordCutover` | services/feedback-loop-pipeline/src/infra/db/snapshot_registry.py:21-42 | The rows become those of the push specified for a cutover |
| `Stores.ModelSnapshotStore.RecordRollback` | services/feedback-loop-pipeline/src/infra/db/snapshot_registry.py:56-74 | The rows become those of the specified rollback; without a target nothing changes |
| `ServingRuns.OpenCandidateStays` | services/feedback-loop-pipeline/src/infra/db/stores.py:139-168 | Once a candidate is open, no other opens, no rollback starts and the release row stays as it is, through every run until the candidate is cut over |
| `ServingRuns.OneCandidateAtATime` | services/feedback-loop-pipeline/src/infra/db/stores.py:139-168 | So between an opening and the next cutover no run opens another candidate |
| `ServingRuns.RollbacksUndoCutovers` | services/feedback-loop-pipeline/src/infra/db/stores.py:182-264 | However all steps interleave: when as many rollbacks completed as cutovers, and never more, the active pair and the snapshot stack are what they were |
| `Stores.ModelReleaseStore.CompleteCandidateCutover` | services/feedback-loop-pipeline/src/infra/db/stores.py:182-219 | The candidate becomes active and the active pair the previous one, with the snapshot pushed; without a candidate nothing changes |
| `Stores.ModelReleaseStore.CompleteRollbackRestore` | services/feedback-loop-pipeline/src/infra/db/stores.py:238-264 | The rollback target becomes active, previous and candidate are cleared, and the snapshot is popped; without a target nothing changes |
| `Stores.ProjectRollbackStore.ExcludeProjectsForProblemModel` | services/feedback-loop-pipeline/src/infra/db/stores.py:510-537 | Afterwards a project is excluded exactly if it was before or has a chunk that was stored under the model; the number of such projects is returned |
| `Stores.ProjectRollbackStore.IsVideoRestored` | services/feedback-loop-pipeline/src/infra/db/stores.py:588-631 | True exactly when the video has chunks and all are in the index with the model |
| `Stores.ProjectRollbackStore.IsProjectRestored` | services/feedback-loop-pipeline/src/infra/db/stores.py:569-586 | True exactly when the project has ready videos and all are restored |
| `Stores.ProjectRollbackStore.ReenterRestoredProjects` | services/feedback-loop-pipeline/src/infra/db/stores.py:539-567 | Exactly the restored excluded projects are served again, and their number is returned |
| `Stores.ProjectRollbackStore.RestoredReembeddingVideoIds` | services/feedback-loop-pipeline/src/infra/db/stores.py:633-657 | Lists each ready, not restored video of an excluded project once |
| `Stores.RollbackRecovery.DispatchRestoredReembedding` | services/feedback-loop-pipeline/src/release/recovery.py:38-58 | One request for each such video |
| `Stores.RollbackRecovery.ScanAndRecover` | services/feedback-loop-pipeline/src/bootstrap.py:369-397 | Dispatches, then re-enters, only when the release is stable and something is excluded |
| `Transitions.RollbackTransitionManager.HandleRequest` | services/feedback-loop-pipeline/src/release/rollback.py:92-140 | One delivery makes the protocol's rollback step, with the same outcome in every branch |
| `Transitions.RollbackTransitionManager.ContinueRestore` | services/feedback-loop-pipeline/src/release/rollback.py:142-159 | Restores only a ready model and an index that is in the catalog and not empty |
| `Transitions.ServingTransitionManager.OpenCandidateRelease` | services/feedback-loop-pipeline/src/release/transition.py:94-225 | Opens, finds already open, or refuses, as the protocol's open step |
| `Transitions.ServingTransitionManager.CutoverCandidateRelease` | services/feedback-loop-pipeline/src/release/transition.py:227-370 | Cuts over, is blocked, or refuses, as the protocol's cutover step; a closed gate changes nothing but the items it queues |
| `Transitions.EnqueueRun` | services/feedback-loop-pipeline/src/infra/db/legacy_reindex_store.py:125-158 | Queueing items for the active release is a run of the protocol's enqueue steps |
| `ReindexStore.LegacyReindexStore.EnsureCutoverReady` | services/feedback-loop-pipeline/src/infra/db/legacy_reindex_store.py:101-123 | Blocked exactly when an old-only video is left in a live index outside the active and candidate ones; while blocked some old-only video has an open item |
| `ReindexStore.LegacyReindexStore.CountOldOnlyVideos` | services/feedback-loop-pipeline/src/infra/db/legacy_reindex_store.py:313-377 | The number of pairs of a source index and a video with a vector there that is missing from the target; zero exactly when the gate is open |
| `ReindexStore.LegacyReindexStore.EnqueueOldOnlyItems` | services/feedback-loop-pipeline/src/infra/db/legacy_reindex_store.py:125-158 | Queues old-only videos only, no more new items than the limit; what room is left was needed by no source |
| `ReindexStore.LegacyReindexStore.EnsureItem` | services/feedback-loop-pipeline/src/infra/db/legacy_reindex_store.py:379-426 | The item is open afterwards; created exactly when there was none; finished items become pending again |
| `ReindexStore.LegacyReindexStore.UpsertReindexedVectors` | services/feedback-loop-pipeline/src/infra/db/legacy_reindex_store.py:265-293 | Writes each vector under its own chunk and changes no other entry |
| `ReindexStore.LegacyReindexStore.TargetVectorCount` | services/feedback-loop-pipeline/src/infra/db/legacy_reindex_store.py:295-311 | The number of the video's chunks in the target index |
| `Reindexing.LegacyReindexCoordinator.EmbedAndUpsertBatches` | services/feedback-loop-pipeline/src/release/legacy_reindex.py:250-345 | For every batch size: all chunks are written, each with the embedding of its own text and the catalogued dimension, unless some reply has the wrong shape; then the batches before it stay |
| `Reindexing.LegacyReindexCoordinator.ProcessItem` | services/feedback-loop-pipeline/src/release/legacy_reindex.py:177-374 | An item that succeeds is exact: the target index holds the video's source chunks and no other chunk of it. With an endpoint that answers, it succeeds exactly when the video is ready, has source chunks with text, and has no other chunk in the target. Every outcome is one reindex step |
| `Reindexing.CountDecides` | services/feedback-loop-pipeline/src/release/legacy_reindex.py:347-374 | The counts agree exactly when the target held no chunk of the video outside the source, and then the target is exact |
| `Reindexing.ItemBesideOtherChunkFails` | services/feedback-loop-pipeline/src/release/legacy_reindex.py:347-374 | A concrete item, reached by an allowed run from a sound start, whose vectors are all written and whose gate opens, but which ends failed because the target already held another chunk of the video |
| `Reindexing.LegacyReindexCoordinator.EnsureCatalogForRelease` | services/feedback-loop-pipeline/src/infra/db/legacy_reindex_store.py:429-455 | Catalogs the active, previous and candidate pair |
| `Reindexing.LegacyReindexCoordinator.PendingItems` | services/feedback-loop-pipeline/src/infra/db/legacy_reindex_store.py:160-167 | As many distinct pending items as the limit allows and there are |
| `Reindexing.LegacyReindexCoordinator.ProcessItems` | services/feedback-loop-pipeline/src/release/legacy_reindex.py:149-170 | Each item given ends succeeded, failed or skipped and is counted so; no other item changes |
| `Reindexing.LegacyReindexCoordinator.RunOnce` | services/feedback-loop-pipeline/src/release/legacy_reindex.py:123-170 | One pass is a run of allowed protocol steps, paused exactly during a rollback or while projects are excluded. It queues old-only videos as far as the limit leaves room, takes as many pending items as the limit allows, ends each of them, and leaves the others; so nothing is pending afterwards if no more than the limit were |
| `VideoReembed.VideoReembedService.ReembedVideo` | services/feedback-loop-pipeline/src/release/video_reembed.py:43-113 | Success means every chunk of the video was embedded from its own text; the error says whether the video was missing |
| `VideoReembed.VideoReembedService.Handle` | services/feedback-loop-pipeline/src/bootstrap.py:277-295 | All or nothing: a failed request changes no table; with an endpoint that answers it succeeds exactly when the video exists and all its chunks have text |
| `RunSlots.RequestKeeps` | services/feedback-loop-pipeline/src/run_control/slots.py:21-53 | A request keeps: one running, one pending, no two active records of a dataset, superseded records link forward |
| `RunSlots.RunKeeps` | services/feedback-loop-pipeline/src/run_control/slots.py:21-53 | The same over every sequence of requests and completions |
| `RunSlots.RequestRows` | services/feedback-loop-pipeline/src/run_control/slots.py:21-53 | Row by row: a dataset with an active record gets the first one; else a new record is added, which runs exactly when no record does, and otherwise waits and supersedes, with a link, the one that waited |
| `RunSlots.ChainEnds` | services/feedback-loop-pipeline/src/run_control/slots.py:38-53 | From every record the links lead forward to one that is not superseded, in no more steps than there are later records |
| `RunSlots.NextIsUnique` | services/feedback-loop-pipeline/src/run_control/slots.py:51-52 | A link names one record |
| `RunSlots.ActiveUntilReplaced` | services/feedback-loop-pipeline/src/run_control/slots.py:21-53 | A repeated request answers with the same record and changes nothing; a record stops being active only by ending or by a later request that waits in its place |
| `RunSlots.RunSlotController.RequestRun` | services/feedback-loop-pipeline/src/run_control/slots.py:21-53 | The objects change as specified: the answer is the active record of the dataset, or a new running or pending one |
| `RunSlots.RunSlotController.FindActiveForDataset` | services/feedback-loop-pipeline/src/run_control/slots.py:55-63 | The first active record of the dataset |
| `LongAudio.PlanParts` | services/pipeline-worker/src/services/long_audio_transcription.py:53-74 | Parts tile the audio: they start at 0, end at the duration, and each begins the overlap before the end of the one before |
| `LongAudio.OwnershipPartitions` | services/pipeline-worker/src/services/transcript_merge_service.py:60-70 | Every instant before the end has exactly one owner, and no other instant has one (instants doubled to stay integral) |
| `LongAudio.OwnedIsInside` | services/pipeline-worker/src/services/long_audio_transcription.py:53-74 | Parts lie inside the audio and last at most length plus overlap |
| `LongAudio.OwnedWords` | services/pipeline-worker/src/services/transcript_merge_service.py:41-58 | Keeps the words whose middle the part owns, on the clock of the whole audio |
| `LongAudio.GlobalIs` | services/pipeline-worker/src/services/transcript_merge_service.py:73-77 | On the global clock each time of a word is moved by the offset, or to the nearest point of the audio, the end not before the start |
| `LongAudio.Merge` | services/pipeline-worker/src/services/transcript_merge_service.py:19-39 | The owned words of all parts, sorted, with their segments; fails on differing counts or missing words |
| `LongAudio.MergeKeepsOwned` | services/pipeline-worker/src/services/transcript_merge_service.py:19-76 | When each part hears exactly the words inside it, the merged words are exactly those inside the part that owns them, each as often as spoken |
| `LongAudio.SplitThenMergeIff` | services/pipeline-worker/src/services/transcript_merge_service.py:19-76 | Splitting and merging gives back the words starting before the end exactly when each lies inside the part that owns it |
| `LongAudio.ShortWordsAreInOwnPart` | services/pipeline-worker/src/services/transcript_merge_service.py:60-70 | A word no longer than the overlap lies inside the part that owns it |
| `LongAudio.LongWordIsDropped` | services/pipeline-worker/src/services/transcript_merge_service.py:60-70 | A concrete plan with a word longer than the overlap that the merge drops |
| `LongAudio.SplitThenMergeIsIdentity` | services/pipeline-worker/src/services/long_audio_transcription.py:53-74 | When no word lasts longer than the overlap, splitting and merging gives the transcript itself |
| `TranscriptWords.RepairReversedWordOffsets` | services/pipeline-worker/src/infra/ai/stt_batch_callable.py:187-200 | Succeeds exactly when every reversed word has unreversed neighbours that leave room; else reports the first word that cannot be repaired, and why |
| `TranscriptWords.RepairedBetween` | services/pipeline-worker/src/infra/ai/stt_batch_callable.py:89-100 | A repaired word keeps its text, lies between its neighbours, and keeps the one of its offsets that alone fits there; else it takes up the gap |
| `TranscriptWords.UnrepairableIff` | services/pipeline-worker/src/infra/ai/stt_batch_callable.py:103-186 | Exactly when a word cannot be repaired, and for which reason: it is reversed and at an end of the list, or beside a reversed word, or its neighbours leave no room |
| `TranscriptWords.RepairOrders` | services/pipeline-worker/src/infra/ai/stt_batch_callable.py:138-200 | No reversed word is left, unreversed words are unchanged, and the result is in order exactly when the unreversed words were |
| `TranscriptWords.SortedIsUnique` | services/pipeline-worker/src/services/transcript_merge_service.py:33 | Sorting by start, end and text leaves no choice |
| `TranscriptWords.SortedMeans` | services/pipeline-worker/src/services/transcript_merge_service.py:34 | Sorted words are in the order of their starts, then ends, then texts |
| `Segments.SegmentsFromWords` | services/pipeline-worker/src/infra/ai/google_stt_adapter.py:56-68 | The loop makes the segments specified |
| `Segments.GroupsAreGrouping` | services/pipeline-worker/src/infra/ai/google_stt_adapter.py:56-68 | Segments hold the non-empty words in order; each goes on until a sentence ends or it has a hundred words |
| `Segments.GroupingIsUnique` | services/pipeline-worker/src/infra/ai/google_stt_adapter.py:56-68 | A list of words has only one grouping of that kind |
| `Segments.SegmentsAreFaithful` | services/pipeline-worker/src/infra/ai/google_stt_adapter.py:56-76 | Segments together say what the words say, hold at most a hundred words each, start and end with the first and last word of their group, and span times in order when the words are in order |
| `Segments.GroupEnds` | services/pipeline-worker/src/infra/ai/google_stt_adapter.py:56-68 | A group ends with its first word that ends in a full stop, exclamation or question mark, or with its hundredth; only the last may end before |
| `Segments.SegmentIs` | services/pipeline-worker/src/infra/ai/google_stt_adapter.py:71-76 | A segment starts and ends with its first and last word, and its text is theirs separated by spaces |
| `Segments.SpokenAre` | services/pipeline-worker/src/infra/ai/google_stt_adapter.py:58-60 | The words grouped are those with text, in their order |
| `Chunking.ChunkSegments` | services/pipeline-worker/src/services/chunking_service.py:34-71 | Dropping from each later chunk what it repeats gives back the fragments; each chunk begins with the last min(k, size) fragments of the one before, adds at least one, and goes on exactly as long as the token limit allows |
| `Chunking.ChunksAreDetermined` | services/pipeline-worker/src/services/chunking_service.py:34-71 | These conditions determine the chunks, so the loop makes the only ones that meet them |
| `Chunking.EveryChunkAdds` | services/pipeline-worker/src/services/chunking_service.py:39-48 | Every chunk is its overlap plus at least one new fragment |
| `Chunking.BeginsWithEnd` | services/pipeline-worker/src/services/chunking_service.py:39-48 | Every chunk but the first begins with the last fragments of the one before, as many as the overlap asks for and there are |
| `Chunking.FragmentsAre` | services/pipeline-worker/src/services/chunking_service.py:54-61 | The fragments are the sentences of the segments in order, with the times of their segment; a segment without sentences is one trimmed fragment |
| `Chunking.ChunkIs` | services/pipeline-worker/src/services/chunking_service.py:63-71 | A chunk spans from the start of its first fragment to the end of its last, and its text is theirs without the blanks at the ends |
| `Chunking.TokensAdd` | services/pipeline-worker/src/services/chunking_service.py:72-74 | The tokens of fragments are the sum of the tokens of their texts |
| `Chunking.OverLimitIsMinimal` | services/pipeline-worker/src/services/chunking_service.py:39-48 | A chunk over the limit is its overlap plus one fragment |
| `Chunking.ChunkingIsUnique` | services/pipeline-worker/src/services/chunking_service.py:39-52 | A list of fragments has one chunking only |
| `Paging.PageIsTop` | services/core-api/src/infra/db/video_repository.py:65-102 | A page holds the newest keys below the cursor, at most the limit and at most 50 of them, and is empty only when there are none; there is a next cursor exactly as the last key when something is left below it |
| `Paging.ListShows` | services/core-api/src/infra/db/video_repository.py:57-102 | A list shows only the requester's videos that are not being deleted, of the project asked for, and beyond the token's key; one of these that is missing comes after a full page of fifty, or of the limit if that is less |
| `Paging.RefusedIff` | services/core-api/src/infra/db/video_repository.py:79-80 | A list is refused exactly for a token that does not decode |
| `Paging.NoItemTwice` | services/core-api/src/infra/db/video_repository.py:57-102 | However videos come and go between requests, items descend and none is returned twice |
| `Paging.NothingSkipped` | services/core-api/src/infra/db/video_repository.py:57-102 | A completed traversal returns every video listed throughout it |
| `Paging.TraversalEnds` | services/core-api/src/infra/db/video_repository.py:57-102 | On a table that does not change the cursors come to an end |
| `Paging.PagesAddUp` | services/core-api/src/infra/db/video_repository.py:57-102 | On a table that does not change the pages add up to the whole sorted list |
| `Paging.TokenResumes` | services/core-api/src/infra/db/cursor.py:18-42 | A request with the token of a key continues below that key |
| `Cursor.DecodeEncode` | services/core-api/src/infra/db/cursor.py:25-33 | base64url (RFC 4648, section 5) decodes what it encoded, for every byte string |
| `Cursor.EncodeIs` | services/core-api/src/infra/db/cursor.py:18-26 | Three bytes and their four characters spell the same 24 bits, padded at the end, in the URL-safe alphabet (`CharIs`) |
| `Cursor.DecodesIff` | services/core-api/src/infra/db/cursor.py:29-43 | A token gives a key exactly when it decodes, filled up to a multiple of four, to a payload with that key whose time carries a time zone |
| `Cursor.RepadStrip` | services/core-api/src/infra/db/cursor.py:25-33 | Padding with -len % 4 restores the text that was stripped of "=" |
| `Cursor.CursorRoundTrip` | services/core-api/src/infra/db/cursor.py:18-42 | A decoded cursor is the key that was encoded |
| `Materializer.DedupeLatestByEventId` | services/feedback-loop-pipeline/src/dataset/materializer.py:206-213 | The loop keeps one event for each id |
| `Materializer.DedupeKeepsLatest` | services/feedback-loop-pipeline/src/dataset/materializer.py:206-213 | The event kept for an id is one of its latest |
| `Materializer.DedupeIsCanonicalIff` | services/feedback-loop-pipeline/src/dataset/materializer.py:206-213 | The result does not depend on the order of the input exactly when no id has two different latest events |
| `Materializer.MaterializeIsCanonicalIff` | services/feedback-loop-pipeline/src/dataset/materializer.py:144-198 | The dataset, in every row and manifest field, does not depend on the order of the input exactly when any two latest events of one id are the same, or make no group and drop as many chunks |
| `Materializer.MaterializeIsCanonical` | services/feedback-loop-pipeline/src/dataset/materializer.py:144-198 | In particular when no id has two different latest events |
| `Materializer.OrderCanMatter` | services/feedback-loop-pipeline/src/dataset/materializer.py:206-213 | A concrete input whose order decides whether there is a row |
| `Materializer.TiesNeedNotMatter` | services/feedback-loop-pipeline/src/dataset/materializer.py:215-226 | A concrete input whose order decides which event is kept but not what the dataset is |
| `Materializer.InOrderIsSorted` | services/feedback-loop-pipeline/src/dataset/materializer.py:164 | Events are taken in order of time, then id |
| `Materializer.GroupForEvent` | services/feedback-loop-pipeline/src/dataset/materializer.py:215-287 | The loops make the group and the drop count specified |
| `Materializer.GroupIsConsistent` | services/feedback-loop-pipeline/src/dataset/materializer.py:215-287 | No chunk is positive and negative in a group; every used or shown chunk is in the group or counted as dropped |
| `Materializer.GroupIff` | services/feedback-loop-pipeline/src/dataset/materializer.py:215-264 | An event makes a group exactly when it was liked, some used chunk has a text, and some chunk shown and not used has one or the project has a chunk that was neither |
| `Materializer.GroupHolds` | services/feedback-loop-pipeline/src/dataset/materializer.py:215-287 | The positives are exactly the used chunks with a text and the exposed negatives exactly the shown, unused ones with a text; other negatives are chunks of the project that were neither |
| `Materializer.KnownAre` | services/feedback-loop-pipeline/src/dataset/materializer.py:225-250 | Candidates are in the order of the ids, one for each id with a text |
| `Materializer.RowsAre` | services/feedback-loop-pipeline/src/dataset/materializer.py:144-199 | The rows are the groups of the kept events, one each, by creation time and then id |
| `Materializer.RandomNegativesAre` | services/feedback-loop-pipeline/src/dataset/materializer.py:290-317 | Random negatives were neither used nor shown, are one beside up to two exposed negatives, two beside up to four and else three, as far as the pool allows, and have the smallest keys |
| `Materializer.Materialize` | services/feedback-loop-pipeline/src/dataset/materializer.py:144-198 | The loop with its counters makes the rows and manifest specified |
| `Materializer.NegativesCountAddsUp` | services/feedback-loop-pipeline/src/dataset/materializer.py:174-176 | The counts by source add up to the negative count |
| `RankingMetrics.MetricsAreNormalised` | services/feedback-loop-pipeline/src/evaluation/evaluator.py:158-170 | For every cutoff and every positive, strictly decreasing discount all three metrics lie in [0, 1], each with the exact condition for 1 |
| `RankingMetrics.RecallAndRankAre` | services/feedback-loop-pipeline/src/evaluation/evaluator.py:158-170 | Recall is the share of the relevant ids among the first k, the reciprocal rank one over the rank of the first of them |
| `RankingMetrics.GainIs` | services/feedback-loop-pipeline/src/evaluation/evaluator.py:158-170 | nDCG is the gain over the gain of as many hits as there could be |
| `RankingMetrics.EachHitGains` | services/feedback-loop-pipeline/src/evaluation/evaluator.py:158-170 | Each hit adds the discount at its position to the gain |
| `RankingMetrics.AverageIs` | services/feedback-loop-pipeline/src/evaluation/evaluator.py:173-180 | Averages weigh by the number of values, and the average of one value is that value |
| `RankingMetrics.GainIsIdealAtTop` | services/feedback-loop-pipeline/src/evaluation/evaluator.py:165-169 | Hits gain at most what as many hits gain at the top, and reach that only there |
| `RankingMetrics.BetterEverywhereIsBetter` | services/feedback-loop-pipeline/src/evaluation/evaluator.py:173-189 | A candidate at least as good on every query is at least as good on average, and equal only when it is on every query |

## Left out

- Row objects: release, run, project, item and video rows are values in the tables of `Database`, so aliasing of
  loaded rows, flush order and read-committed races are not modelled. Snapshot ids and clock readings are parameters.
- Columns that no decision reads: updated_at, retry counts, failure fields, trace ids, user ids, metrics and logging.
- `Serving.Persist`, `Serving.LoadTarget`, `Serving.SetVideoStatus` and `Serving.PurgeVideo` model the ingest and
  deletion side as whole transactions; the pipeline-worker classes around them are not modelled statement by
  statement.
- The core-api compensation that sets a deleting video back to ready when publishing fails is not a step of the runs.
- The fallback target of an ingest when no release row exists: a release row is always there in the runs.
- Termination of reindexing when items fail: failed items are not queued again. Progress of a release whose run is
  blocked from deployment.
- When the reindex worker commits: its long-running mode commits nothing in
  services/feedback-loop-pipeline/src/bootstrap.py:309-339, which the model does not show.
- The order in which queries return rows: methods take rows in any order. A video whose vectors disagree about owner
  or project would be listed twice; here it counts once.
- A crash inside a reindex item: the source processes a pass in one transaction.
- The IntegrityError path of the database run slots, and whether anything promotes a pending run: no code shown does.
- Wait times and the snapshot of the admission controller; time is abstracted to "a timeout may happen at any point of
  the wait".
- Lenient decoding: the decoder of `Cursor` refuses characters that Python's would skip. Expiry and content of tokens
  beyond the key are not modelled.
- Chunk texts are joined and stripped of blanks only; other white space is left to the sentence splitter.
- Floating point: midpoints are doubled integers and metrics are real numbers.
- Dataset eligibility thresholds, artifact writing, training, evaluation search and everything around HTTP, queues and
  storage.
