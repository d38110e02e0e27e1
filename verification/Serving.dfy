/**
 The tables behind release, rollback, reindexing and recovery, and every transaction on them
 as one step from tables to tables. Times are instants of the system clock, in UTC.
 */
module Serving {
  import opened Wrappers
  import opened SnapshotRegistry

  type Vector = seq<real>

  datatype ReleaseStatus = Stable | CandidateReindexing | RollbackPreparing

  datatype Release = Release(
    status: ReleaseStatus,
    activeModel: string, activeIndex: string,
    previousModel: Option<string>, previousIndex: Option<string>,
    candidateModel: Option<string>, candidateIndex: Option<string>,
    candidateOpenedAt: Option<int>, candidateReadyAt: Option<int>,
    switchedAt: Option<int>)

  datatype RunStatus = ReadyForRelease | DeployCompleted | OtherRun
  datatype PipelineRun = PipelineRun(
    status: RunStatus, candidateModel: Option<string>, candidateIndex: Option<string>, cutoverTime: Option<int>)

  datatype CatalogRow = CatalogRow(model: string, dimension: nat, deleted: bool)

  datatype VideoStatus = Ready | Deleting | Unready
  datatype Video = Video(project: Option<nat>, status: VideoStatus)

  /** `input` is the text that is embedded for the chunk, if it has any. */
  datatype Chunk = Chunk(video: nat, sttModel: string, embeddingModel: string, input: Option<string>)

  datatype Entry = Entry(video: nat, model: string, vector: Vector)

  datatype ServingState = Servable | RollbackExcluded

  datatype ItemKey = ItemKey(video: nat, source: string, target: string)
  datatype ItemStatus = Pending | Running | Succeeded | Failed | Skipped
  datatype Item = Item(status: ItemStatus, targetModel: string)

  /** A worker that read its target model and index and has not stored its chunks yet. */
  datatype IngestJob = IngestJob(video: nat, index: string, model: string)

  /** A re-embedding request that was sent; queues may deliver it again and again. */
  datatype Reembedding = Reembedding(video: nat, model: string, index: string)

  datatype World = World(
    release: Option<Release>,
    snapshots: seq<Snapshot>,
    runs: map<nat, PipelineRun>,
    catalog: map<string, CatalogRow>,
    projects: map<nat, ServingState>,
    videos: map<nat, Video>,
    chunks: map<nat, Chunk>,
    entries: map<(string, nat), Entry>,
    items: map<ItemKey, Item>,
    jobs: map<nat, IngestJob>,
    requests: set<Reembedding>)

  // ---- queries ----

  predicate Alive(w: World, index: string) {
    index in w.catalog && !w.catalog[index].deleted
  }

  predicate IsReady(w: World, c: nat) {
    c in w.chunks && w.chunks[c].video in w.videos && w.videos[w.chunks[c].video].status == Ready
  }

  function ChunksOf(w: World, v: nat): set<nat> {
    set c | c in w.chunks && w.chunks[c].video == v
  }

  function SourceChunks(w: World, v: nat, index: string): set<nat> {
    set c | c in w.chunks && w.chunks[c].video == v && (index, c) in w.entries
  }

  /** Videos that are ready and have a vector in `source` whose chunk has none in `target`. */
  function OldOnlyVideos(w: World, source: string, target: string): set<nat> {
    set p | p in w.entries && p.0 == source
      && w.entries[p].video in w.videos && w.videos[w.entries[p].video].status == Ready
      && (target, p.1) !in w.entries
      :: w.entries[p].video
  }

  function ExcludedIndexes(r: Release): set<string> {
    {r.activeIndex} + (if r.candidateIndex.Some? then {r.candidateIndex.value} else {})
  }

  function SourceIndexes(w: World, excluded: set<string>): set<string> {
    set s | s in w.catalog && !w.catalog[s].deleted && s !in excluded
  }

  /** The gate before cutover: some live index outside `excluded` has a video with a vector missing from `target`. */
  ghost predicate OldOnlyLeft(w: World, target: string, excluded: set<string>) {
    exists s :: s in SourceIndexes(w, excluded) && OldOnlyVideos(w, s, target) != {}
  }

  predicate VideoRestored(w: World, v: nat, model: string, index: string) {
    && ChunksOf(w, v) != {}
    && forall c <- ChunksOf(w, v) :: (index, c) in w.entries && w.entries[(index, c)].model == model
  }

  function ReadyVideos(w: World, p: nat): set<nat> {
    set v | v in w.videos && w.videos[v].project == Some(p) && w.videos[v].status == Ready
  }

  predicate ProjectRestored(w: World, p: nat, model: string, index: string) {
    && ReadyVideos(w, p) != {}
    && forall v <- ReadyVideos(w, p) :: VideoRestored(w, v, model, index)
  }

  function ExcludedProjects(w: World): set<nat> {
    set p | p in w.projects && w.projects[p] == RollbackExcluded
  }

  /** Ready videos of excluded projects that are not fully in the index. */
  function DispatchSet(w: World, model: string, index: string): set<nat> {
    set v | v in w.videos && w.videos[v].status == Ready
      && w.videos[v].project.Some? && w.videos[v].project.value in ExcludedProjects(w)
      && !VideoRestored(w, v, model, index)
  }

  /** Projects with a chunk that was embedded by the problem model when it was stored. */
  function AffectedProjects(w: World, model: string): set<nat> {
    set c | c in w.chunks && w.chunks[c].embeddingModel == model
      && w.chunks[c].video in w.videos && w.videos[w.chunks[c].video].project.Some?
      :: w.videos[w.chunks[c].video].project.value
  }

  /** The chunk was embedded by the model when it was stored, for a video of the project. */
  predicate StoredUnder(w: World, c: nat, p: nat, model: string) {
    && c in w.chunks && w.chunks[c].embeddingModel == model
    && w.chunks[c].video in w.videos && w.videos[w.chunks[c].video].project == Some(p)
  }

  function RollbackTarget(w: World): Option<(string, string)> {
    match Find(w.snapshots, PreviousStable)
    case None => None
    case Some(i) => Some((w.snapshots[i].model, w.snapshots[i].index))
  }

  // ---- opening a candidate and cutting over ----

  function CandidateIndexFor(run: PipelineRun): string
    requires run.candidateModel.Some?
  {
    if run.candidateIndex.Some? && run.candidateIndex.value != "" then run.candidateIndex.value
    else "candidate-index-" + run.candidateModel.value
  }

  datatype OpenOutcome = Opened | AlreadyOpen | OpenRefused

  function OpenOutcomeOf(w: World, runId: nat): OpenOutcome {
    if runId !in w.runs || w.runs[runId].status != ReadyForRelease then OpenRefused
    else if w.runs[runId].candidateModel.None? then OpenRefused
    else if w.release.None? then OpenRefused
    else if w.release.value.status == CandidateReindexing
         && w.release.value.candidateModel == w.runs[runId].candidateModel
         && w.release.value.candidateIndex == Some(CandidateIndexFor(w.runs[runId])) then AlreadyOpen
    else if w.release.value.status != Stable then OpenRefused
    else Opened
  }

  function RecordCandidateIndex(w: World, runId: nat): (r: World)
    requires runId in w.runs && w.runs[runId].candidateModel.Some?
    ensures r == w.(runs := r.runs)
  {
    var run := w.runs[runId];
    if run.candidateIndex.Some? then w
    else w.(runs := w.runs[runId := run.(candidateIndex := Some(CandidateIndexFor(run)))])
  }

  function Open(w: World, runId: nat, now: int): (r: World)
    ensures r == w.(release := r.release, runs := r.runs)
  {
    match OpenOutcomeOf(w, runId)
    case OpenRefused => w
    case AlreadyOpen => RecordCandidateIndex(w, runId)
    case Opened =>
      var run := w.runs[runId];
      var r := w.release.value.(status := CandidateReindexing, candidateModel := run.candidateModel,
        candidateIndex := Some(CandidateIndexFor(run)), candidateOpenedAt := Some(now), candidateReadyAt := None);
      RecordCandidateIndex(w.(release := Some(r)), runId)
  }

  datatype CutoverOutcome = CutOver | BlockedNotReady | BlockedLegacyVectorsRemain | CutoverRefused

  function CutoverTime(w: World, runId: nat, now: int): int {
    if runId in w.runs && w.runs[runId].cutoverTime.Some? then w.runs[runId].cutoverTime.value else now
  }

  predicate CutoverAllowed(w: World, runId: nat) {
    && runId in w.runs && w.release.Some? && w.release.value.status == CandidateReindexing
    && w.release.value.candidateModel.Some? && w.release.value.candidateIndex.Some?
    && w.release.value.candidateOpenedAt.Some?
    && w.runs[runId].candidateModel == w.release.value.candidateModel
  }

  ghost function CutoverOutcomeOf(w: World, runId: nat, modelReady: bool): CutoverOutcome {
    if !CutoverAllowed(w, runId) then CutoverRefused
    else if !modelReady then BlockedNotReady
    else if OldOnlyLeft(w, w.release.value.activeIndex, ExcludedIndexes(w.release.value))
    then BlockedLegacyVectorsRemain
    else CutOver
  }

  /** Promotes the candidate: the active pair becomes the previous one. */
  function Promote(r: Release, t: int): Release
    requires r.candidateModel.Some? && r.candidateIndex.Some?
  {
    Release(Stable, r.candidateModel.value, r.candidateIndex.value, Some(r.activeModel), Some(r.activeIndex),
      None, None, None, None, Some(t))
  }

  ghost function Cutover(w: World, runId: nat, modelReady: bool, snapshotId: nat, now: int): (r: World)
    ensures r == w.(release := r.release, snapshots := r.snapshots, runs := r.runs)
  {
    if CutoverOutcomeOf(w, runId, modelReady) != CutOver then w
    else
      var r, t := w.release.value, CutoverTime(w, runId, now);
      w.(release := Some(Promote(r, t)),
         snapshots := RecordCutover(w.snapshots, snapshotId, r.candidateModel.value, r.candidateIndex.value, t),
         runs := w.runs[runId := w.runs[runId].(cutoverTime := Some(t), status := DeployCompleted)])
  }

  // ---- rollback ----

  /** A date and time as the program holds it: clock digits and, when aware, the offset from UTC. */
  datatype Datetime = Datetime(wall: int, offset: Option<int>)

  function Utc(t: int): Datetime { Datetime(t, Some(0)) }

  predicate Equal(a: Datetime, b: Datetime) {
    match (a.offset, b.offset)
    case (Some(x), Some(y)) => a.wall - x == b.wall - y
    case (None, None) => a.wall == b.wall
    case _ => false
  }

  predicate SameDatetime(left: Option<Datetime>, right: Datetime) {
    left.Some? && (Equal(left.value, right) || left.value.wall == right.wall)
  }

  datatype RollbackRequest = RollbackRequest(version: string, expectedModel: string, expectedSwitchedAt: Datetime)

  datatype RollbackOutcome =
    | UnsupportedVersion | MissingRelease | MissingSnapshot | AlreadyRestored | InvalidState | StaleRequest
    | RollbackNotReady | BlockedIndexRestore | Restored

  predicate MatchesSwitch(r: Release, q: RollbackRequest) {
    && r.activeModel == q.expectedModel
    && SameDatetime(if r.switchedAt.Some? then Some(Utc(r.switchedAt.value)) else None, q.expectedSwitchedAt)
  }

  /** The index of a snapshot can serve again: it is in the catalog and holds a vector. */
  predicate IndexRestorable(w: World, index: string) {
    Alive(w, index) && exists p <- w.entries.Keys :: p.0 == index
  }

  /** What a request meets before anything is written. */
  datatype Admission = Rejected(outcome: RollbackOutcome) | Continue | Start

  function AdmissionOf(w: World, q: RollbackRequest): Admission {
    if q.version != "v1" then Rejected(UnsupportedVersion)
    else if w.release.None? then Rejected(MissingRelease)
    else
      var r := w.release.value;
      match RollbackTarget(w)
      case None => Rejected(MissingSnapshot)
      case Some(target) =>
        if r.status == Stable && r.activeModel == target.0 then Rejected(AlreadyRestored)
        else if r.status == RollbackPreparing then Continue
        else if r.status != Stable then Rejected(InvalidState)
        else if !MatchesSwitch(r, q) then Rejected(StaleRequest)
        else Start
  }

  function ExcludeProjects(w: World, model: string): (r: World)
    ensures r == w.(projects := r.projects)
  {
    var affected := AffectedProjects(w, model);
    w.(projects := map p | p in w.projects :: if p in affected then RollbackExcluded else w.projects[p])
  }

  lemma ExcludesStoredUnder(w: World, model: string, p: nat)
    requires p in w.projects
    ensures var r := ExcludeProjects(w, model);
      p in r.projects &&
      (r.projects[p] == RollbackExcluded <==>
        w.projects[p] == RollbackExcluded || exists c :: StoredUnder(w, c, p, model))
  {
    if p in AffectedProjects(w, model) {
      var c :| c in w.chunks && w.chunks[c].embeddingModel == model
        && w.chunks[c].video in w.videos && w.videos[w.chunks[c].video].project == Some(p);
      assert StoredUnder(w, c, p, model);
    }
    if c :| StoredUnder(w, c, p, model) { assert p in AffectedProjects(w, model); }
  }

  function MarkPreparing(w: World): (r: World)
    requires w.release.Some?
    ensures r == w.(release := r.release)
  {
    w.(release := Some(w.release.value.(status := RollbackPreparing)))
  }

  function RestoreOutcome(w: World, index: string, modelReady: bool): RollbackOutcome {
    if !modelReady then RollbackNotReady else if !IndexRestorable(w, index) then BlockedIndexRestore else Restored
  }

  /** Switches serving back to the rollback target and moves the snapshot table with it. */
  function CompleteRestore(w: World, now: int): (r: World)
    requires w.release.Some? && RollbackTarget(w).Some?
    ensures r == w.(release := r.release, snapshots := r.snapshots)
  {
    var target := RollbackTarget(w).value;
    w.(release := Some(Release(Stable, target.0, target.1, None, None, None, None, None, None, Some(now))),
       snapshots := RecordRollback(w.snapshots).value)
  }

  function ContinueRestore(w: World, modelReady: bool, now: int): (r: (World, RollbackOutcome))
    requires w.release.Some? && RollbackTarget(w).Some?
    ensures r.0 == w.(release := r.0.release, snapshots := r.0.snapshots)
  {
    var outcome := RestoreOutcome(w, RollbackTarget(w).value.1, modelReady);
    (if outcome == Restored then CompleteRestore(w, now) else w, outcome)
  }

  function HandleRollback(w: World, q: RollbackRequest, modelReady: bool, now: int): (r: (World, RollbackOutcome))
    ensures r.0 == w.(release := r.0.release, snapshots := r.0.snapshots, projects := r.0.projects)
  {
    match AdmissionOf(w, q)
    case Rejected(outcome) => (w, outcome)
    case Continue => ContinueRestore(w, modelReady, now)
    case Start => ContinueRestore(MarkPreparing(ExcludeProjects(w, w.release.value.activeModel)), modelReady, now)
  }

  // ---- vectors ----

  function AddEntries(
    entries: map<(string, nat), Entry>, index: string, video: nat, model: string, vectors: map<nat, Vector>
  ): (r: map<(string, nat), Entry>)
    ensures forall p <- r.Keys ::
      if p.0 == index && p.1 in vectors then r[p] == Entry(video, model, vectors[p.1])
      else p in entries && r[p] == entries[p]
    ensures forall p <- entries.Keys :: p in r
    ensures forall c <- vectors.Keys :: (index, c) in r
  {
    entries + map c | c in vectors :: (index, c) := Entry(video, model, vectors[c])
  }

  /** The vectors left when some chunks go: all vectors of a chunk go with it. */
  function WithoutChunks(entries: map<(string, nat), Entry>, gone: set<nat>): (r: map<(string, nat), Entry>)
    ensures forall p :: p in r <==> p in entries && p.1 !in gone
    ensures forall p <- r.Keys :: r[p] == entries[p]
  {
    map p | p in entries && p.1 !in gone :: entries[p]
  }

  function ReplaceChunks(
    chunks: map<nat, Chunk>, gone: set<nat>, v: nat, stt: string, model: string, inputs: map<nat, Option<string>>
  ): (r: map<nat, Chunk>)
    ensures forall c :: c in r <==> c in inputs || (c in chunks && c !in gone)
    ensures forall c <- r.Keys :: r[c] == if c in inputs then Chunk(v, stt, model, inputs[c]) else chunks[c]
  {
    (chunks - gone) + map c | c in inputs :: Chunk(v, stt, model, inputs[c])
  }

  /** The chunks an earlier ingest of the video stored for the same model versions. */
  function SameVersionChunks(w: World, v: nat, stt: string, model: string): set<nat> {
    set c | c in w.chunks && w.chunks[c].video == v
      && w.chunks[c].sttModel == stt && w.chunks[c].embeddingModel == model
  }

  /** Stores a video's new chunks in place of its chunks with the same model versions, and makes it ready.
      An ingest without chunks is refused. */
  function Persist(
    w: World, job: nat, stt: string, inputs: map<nat, Option<string>>, vectors: map<nat, Vector>): (r: World)
    ensures r == w.(jobs := r.jobs, videos := r.videos, chunks := r.chunks, entries := r.entries)
  {
    if job !in w.jobs || inputs.Keys == {} then w
    else
      var IngestJob(v, index, model) := w.jobs[job];
      if v !in w.videos || w.videos[v].status == Deleting then w.(jobs := w.jobs - {job})
      else
        var gone := SameVersionChunks(w, v, stt, model);
        w.(jobs := w.jobs - {job},
           videos := w.videos[v := w.videos[v].(status := Ready)],
           chunks := ReplaceChunks(w.chunks, gone, v, stt, model, inputs),
           entries := AddEntries(WithoutChunks(w.entries, gone), index, v, model, vectors))
  }

  /** Reads the target of a new ingest job; there is none while a rollback is being prepared. */
  function LoadTarget(w: World, job: nat, v: nat): (r: World)
    ensures r == w.(jobs := r.jobs)
  {
    if w.release.None? || w.release.value.status == RollbackPreparing then w
    else w.(jobs := w.jobs[job := IngestJob(v, w.release.value.activeIndex, w.release.value.activeModel)])
  }

  /** Registers a reindex item for an old-only video, or makes a finished one pending again. */
  function EnsureItem(items: map<ItemKey, Item>, key: ItemKey, targetModel: string): map<ItemKey, Item> {
    if key !in items || items[key].status in {Succeeded, Skipped} then items[key := Item(Pending, targetModel)]
    else items
  }

  function EnqueueItem(w: World, v: nat, source: string): (r: World)
    ensures r == w.(items := r.items)
  {
    if w.release.None? then w
    else
      var r := w.release.value;
      if source !in SourceIndexes(w, ExcludedIndexes(r)) || v !in OldOnlyVideos(w, source, r.activeIndex) then w
      else w.(items := EnsureItem(w.items, ItemKey(v, source, r.activeIndex), r.activeModel))
  }

  /** Ends the processing of one item with the vectors that were written for it. */
  function ReindexItem(w: World, key: ItemKey, vectors: map<nat, Vector>, status: ItemStatus): (r: World)
    ensures r == w.(items := r.items, entries := r.entries)
  {
    if key !in w.items then w
    else
      w.(items := w.items[key := w.items[key].(status := status)],
         entries := AddEntries(w.entries, key.target, key.video, w.items[key].targetModel, vectors))
  }

  function CatalogIndex(
    catalog: map<string, CatalogRow>, index: string, model: string, dimension: nat): map<string, CatalogRow> {
    catalog[index := CatalogRow(model, dimension, index in catalog && catalog[index].deleted)]
  }

  function CatalogPair(
    catalog: map<string, CatalogRow>, index: Option<string>, model: Option<string>, dimension: nat
  ): map<string, CatalogRow> {
    if index.Some? && model.Some? then CatalogIndex(catalog, index.value, model.value, dimension) else catalog
  }

  function CatalogRelease(w: World, dimension: nat): (r: World)
    ensures r == w.(catalog := r.catalog)
  {
    if w.release.None? then w
    else
      var r := w.release.value;
      var active := CatalogIndex(w.catalog, r.activeIndex, r.activeModel, dimension);
      var previous := CatalogPair(active, r.previousIndex, r.previousModel, dimension);
      w.(catalog := CatalogPair(previous, r.candidateIndex, r.candidateModel, dimension))
  }

  // ---- recovery ----

  function Reembed(w: World, q: Reembedding, vectors: map<nat, Vector>): (r: World)
    ensures r == w.(entries := r.entries)
  {
    if q.video !in w.videos then w
    else w.(entries := AddEntries(w.entries, q.index, q.video, q.model, vectors))
  }

  function Dispatch(w: World, model: string, index: string): (r: World)
    ensures r == w.(requests := r.requests)
  {
    w.(requests := w.requests + set v | v in DispatchSet(w, model, index) :: Reembedding(v, model, index))
  }

  function Reenter(w: World, model: string, index: string): (r: World)
    ensures r == w.(projects := r.projects)
  {
    w.(projects := map p | p in w.projects ::
      if w.projects[p] == RollbackExcluded && ProjectRestored(w, p, model, index) then Servable else w.projects[p])
  }

  function ScanAndRecover(w: World): (r: World)
    ensures r == w.(requests := r.requests, projects := r.projects)
  {
    if w.release.None? || w.release.value.status != Stable || ExcludedProjects(w) == {} then w
    else
      var r := w.release.value;
      Reenter(Dispatch(w, r.activeModel, r.activeIndex), r.activeModel, r.activeIndex)
  }

  // ---- videos coming and going ----

  function SetVideoStatus(w: World, v: nat, status: VideoStatus): (r: World)
    ensures r == w.(videos := r.videos)
  {
    if v in w.videos && w.videos[v].status != Deleting
    then w.(videos := w.videos[v := w.videos[v].(status := status)])
    else w
  }

  /** Removes a video's chunks with all their vectors, and its reindex items. */
  function PurgeVideo(w: World, v: nat): (r: World)
    ensures r == w.(chunks := r.chunks, entries := r.entries, items := r.items)
  {
    var gone := ChunksOf(w, v);
    w.(chunks := w.chunks - gone,
       entries := WithoutChunks(w.entries, gone),
       items := map k | k in w.items && k.video != v :: w.items[k])
  }

  // ---- steps and runs ----

  datatype Step =
    | OpenStep(runId: nat, now: int)
    | CutoverStep(runId: nat, modelReady: bool, snapshotId: nat, now: int)
    | RollbackStep(request: RollbackRequest, modelReady: bool, now: int)
    | LoadTargetStep(job: nat, video: nat)
    | PersistStep(job: nat, stt: string, inputs: map<nat, Option<string>>, vectors: map<nat, Vector>)
    | EnqueueStep(video: nat, source: string)
    | ReindexStep(key: ItemKey, vectors: map<nat, Vector>, status: ItemStatus)
    | CatalogStep(dimension: nat)
    | ReembedStep(reembedding: Reembedding, vectors: map<nat, Vector>)
    | RecoveryStep
    | UploadStep(video: nat, project: Option<nat>)
    | FailStep(video: nat)
    | DeleteStep(video: nat)
    | PurgeStep(video: nat)
    | RunStep(runId: nat, run: PipelineRun)

  ghost function Apply(w: World, step: Step): World {
    match step
    case OpenStep(runId, now) => Open(w, runId, now)
    case CutoverStep(runId, modelReady, id, now) => Cutover(w, runId, modelReady, id, now)
    case RollbackStep(q, modelReady, now) => HandleRollback(w, q, modelReady, now).0
    case LoadTargetStep(job, v) => LoadTarget(w, job, v)
    case PersistStep(job, stt, inputs, vectors) => Persist(w, job, stt, inputs, vectors)
    case EnqueueStep(v, source) => EnqueueItem(w, v, source)
    case ReindexStep(key, vectors, status) => ReindexItem(w, key, vectors, status)
    case CatalogStep(dimension) => CatalogRelease(w, dimension)
    case ReembedStep(q, vectors) => Reembed(w, q, vectors)
    case RecoveryStep => ScanAndRecover(w)
    case UploadStep(v, project) => w.(videos := w.videos[v := Video(project, Unready)])
    case FailStep(v) => SetVideoStatus(w, v, Unready)
    case DeleteStep(v) => SetVideoStatus(w, v, Deleting)
    case PurgeStep(v) => PurgeVideo(w, v)
    case RunStep(runId, run) => w.(runs := w.runs[runId := run])
  }
}
