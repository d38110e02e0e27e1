/** What holds of the serving tables in every run, whatever steps it takes. */
module ServingInvariant {
  import opened Wrappers
  import opened SnapshotRegistry
  import opened Serving

  /** The release row is the top of the snapshot stack. */
  ghost predicate ReleaseIsTop(r: Release, snapshots: seq<Snapshot>) {
    var s := Stack(snapshots);
    && IsStack(snapshots) && s != []
    && s[|s| - 1].model == r.activeModel && s[|s| - 1].index == r.activeIndex
  }

  /** A rollback under way has a release to go back to, and a previous index is that release's index. */
  ghost predicate PreviousIsBelow(r: Release, snapshots: seq<Snapshot>) {
    var s := Stack(snapshots);
    && (r.status == RollbackPreparing ==> |s| >= 2)
    && (r.previousIndex.Some? && |s| >= 2 ==> r.previousIndex.value == s[|s| - 2].index)
    && (r.previousIndex.Some? <==> r.previousModel.Some?)
  }

  /** Candidate fields are set exactly while a candidate is open. */
  ghost predicate CandidateFields(r: Release) {
    && (r.status == CandidateReindexing <==> r.candidateModel.Some?)
    && (r.candidateModel.Some? <==> r.candidateIndex.Some?)
    && (r.candidateModel.Some? <==> r.candidateOpenedAt.Some?)
  }

  /** Nothing was, is or will be written to this index. */
  ghost predicate Untouched(w: World, index: string) {
    && (forall p <- w.entries.Keys :: p.0 != index)
    && (forall k <- w.items.Keys :: k.source != index && k.target != index)
    && (forall j <- w.jobs.Keys :: w.jobs[j].index != index)
    && (forall q <- w.requests :: q.index != index)
  }

  ghost predicate CandidateApart(w: World) {
    w.release.Some? && w.release.value.candidateIndex.Some? ==>
      w.release.value.candidateIndex.value != w.release.value.activeIndex
      && Untouched(w, w.release.value.candidateIndex.value)
  }

  /** Vectors belong to stored chunks, and reindex items read live indexes. */
  ghost predicate DataLinked(w: World) {
    && (forall p <- w.entries.Keys :: p.1 in w.chunks && w.chunks[p.1].video == w.entries[p].video)
    && (forall k <- w.items.Keys :: Alive(w, k.source))
  }

  ghost predicate Inv(w: World) {
    && w.release.Some?
    && ReleaseIsTop(w.release.value, w.snapshots)
    && PreviousIsBelow(w.release.value, w.snapshots)
    && CandidateFields(w.release.value)
    && CandidateApart(w)
    && DataLinked(w)
  }

  ghost predicate CapturedBefore(snapshots: seq<Snapshot>, t: int) {
    forall k :: 0 <= k < |Stack(snapshots)| ==> Stack(snapshots)[k].capturedAt < t
  }

  /** What the surroundings of the tables guarantee: the clock advances, generated names and ids are
      new, and work is done for the videos and requests it was asked for. */
  ghost predicate Allowed(w: World, step: Step) {
    match step
    case OpenStep(runId, now) =>
      OpenOutcomeOf(w, runId) == Opened ==>
        var index := CandidateIndexFor(w.runs[runId]);
        index != w.release.value.activeIndex && index !in w.catalog && Untouched(w, index)
    case CutoverStep(runId, modelReady, id, now) =>
      CutoverOutcomeOf(w, runId, modelReady) == CutOver ==>
        CapturedBefore(w.snapshots, CutoverTime(w, runId, now)) && SwitchedBefore(w, CutoverTime(w, runId, now))
    case RollbackStep(q, modelReady, now) => SwitchedBefore(w, now)
    case PersistStep(job, stt, inputs, vectors) =>
      inputs.Keys == vectors.Keys && forall c <- inputs.Keys :: c !in w.chunks
    case ReindexStep(key, vectors, status) =>
      key in w.items ==> vectors.Keys <= SourceChunks(w, key.video, key.source)
    case ReembedStep(q, vectors) => q in w.requests && vectors.Keys <= ChunksOf(w, q.video)
    case UploadStep(v, project) => v !in w.videos
    case _ => true
  }

  ghost predicate SwitchedBefore(w: World, t: int) {
    w.release.Some? && w.release.value.switchedAt.Some? ==> w.release.value.switchedAt.value < t
  }

  /** The rollback target is the release below the top, if there is one. */
  lemma TargetBelowTop(w: World)
    requires IsStack(w.snapshots)
    ensures var s := Stack(w.snapshots);
      RollbackTarget(w) == if |s| >= 2 then Some((s[|s| - 2].model, s[|s| - 2].index)) else None
  {
    FoundInStack(w.snapshots);
  }

  lemma CutoverKeeps(w: World, runId: nat, modelReady: bool, id: nat, now: int)
    requires Inv(w)
    requires CutoverOutcomeOf(w, runId, modelReady) == CutOver ==>
      CapturedBefore(w.snapshots, CutoverTime(w, runId, now))
    ensures Inv(Cutover(w, runId, modelReady, id, now))
  {
    hide IsStack, Stack, RecordCutover, Top, OldOnlyLeft;
    if CutoverOutcomeOf(w, runId, modelReady) == CutOver {
      var r, t := w.release.value, CutoverTime(w, runId, now);
      CutoverOnStack(w.snapshots, id, r.candidateModel.value, r.candidateIndex.value, t);
    }
  }

  lemma RestoreKeeps(w: World, now: int)
    requires Inv(w) && RollbackTarget(w).Some? && w.release.value.status != CandidateReindexing
    ensures Inv(CompleteRestore(w, now))
  {
    hide IsStack, Stack, RecordRollback, RollbackTarget;
    TargetBelowTop(w);
    RollbackOnStack(w.snapshots);
  }

  lemma PrepareKeeps(w: World)
    requires Inv(w) && RollbackTarget(w).Some? && w.release.value.status == Stable
    ensures var r := MarkPreparing(ExcludeProjects(w, w.release.value.activeModel));
      Inv(r) && RollbackTarget(r) == RollbackTarget(w)
  {
    hide IsStack, Stack, AffectedProjects;
    TargetBelowTop(w);
  }

  lemma RollbackKeeps(w: World, q: RollbackRequest, modelReady: bool, now: int)
    requires Inv(w)
    ensures Inv(HandleRollback(w, q, modelReady, now).0)
  {
    hide ReleaseIsTop, PreviousIsBelow, CandidateApart, DataLinked;
    hide RollbackTarget, IndexRestorable, CompleteRestore, MarkPreparing, ExcludeProjects, MatchesSwitch;
    match AdmissionOf(w, q)
    case Rejected(_) =>
    case Continue => RestoreKeeps(w, now);
    case Start =>
      PrepareKeeps(w);
      var prepared := MarkPreparing(ExcludeProjects(w, w.release.value.activeModel));
      PreparedStatus(w);
      RestoreKeeps(prepared, now);
  }

  lemma PreparedStatus(w: World)
    requires w.release.Some?
    ensures var r := MarkPreparing(ExcludeProjects(w, w.release.value.activeModel));
      r.release == Some(w.release.value.(status := RollbackPreparing))
  {
  }

  lemma OpenKeeps(w: World, runId: nat, now: int)
    requires Inv(w) && Allowed(w, OpenStep(runId, now))
    ensures Inv(Open(w, runId, now))
  {
    hide ReleaseIsTop, PreviousIsBelow, CandidateFields, CandidateApart, DataLinked, CandidateIndexFor;
    hide RecordCandidateIndex, Untouched;
    var r := Open(w, runId, now);
    match OpenOutcomeOf(w, runId)
    case Opened =>
      var index := CandidateIndexFor(w.runs[runId]);
      OpenedKeeps(w, r, w.runs[runId].candidateModel.value, index, now);
    case AlreadyOpen => OtherRunsKeep(w, r);
    case OpenRefused =>
  }

  lemma OtherRunsKeep(w: World, r: World)
    requires Inv(w) && r == w.(runs := r.runs)
    ensures Inv(r)
  {
    hide ReleaseIsTop, PreviousIsBelow, CandidateFields;
  }

  lemma OpenedKeeps(w: World, r: World, model: string, index: string, now: int)
    requires Inv(w) && w.release.value.status == Stable
    requires index != w.release.value.activeIndex && Untouched(w, index)
    requires r == w.(release := r.release, runs := r.runs)
    requires r.release == Some(w.release.value.(status := CandidateReindexing, candidateModel := Some(model),
      candidateIndex := Some(index), candidateOpenedAt := Some(now), candidateReadyAt := None))
    ensures Inv(r)
  {
    hide IsStack, Stack, DataLinked, Untouched;
    SameData(w, r);
  }

  lemma SameData(w: World, r: World)
    requires r == w.(release := r.release, runs := r.runs)
    ensures DataLinked(r) == DataLinked(w)
    ensures forall i :: Untouched(r, i) == Untouched(w, i)
  {
  }

  /** A step that leaves the release row and the snapshots alone only has to keep the data part. */
  lemma DataKeeps(w: World, r: World)
    requires Inv(w) && r.release == w.release && r.snapshots == w.snapshots
    requires CandidateApart(r) && DataLinked(r)
    ensures Inv(r)
  {
  }

  lemma PersistKeeps(w: World, job: nat, stt: string, inputs: map<nat, Option<string>>, vectors: map<nat, Vector>)
    requires Inv(w) && inputs.Keys == vectors.Keys && forall c <- inputs.Keys :: c !in w.chunks
    ensures Inv(Persist(w, job, stt, inputs, vectors))
  {
    hide ReleaseIsTop, PreviousIsBelow, CandidateFields, CandidateApart, DataLinked, Persist;
    PersistKeepsLinks(w, job, stt, inputs, vectors);
    PersistKeepsApart(w, job, stt, inputs, vectors);
    DataKeeps(w, Persist(w, job, stt, inputs, vectors));
  }

  lemma PersistKeepsLinks(w: World, job: nat, stt: string, inputs: map<nat, Option<string>>, vectors: map<nat, Vector>)
    requires DataLinked(w) && inputs.Keys == vectors.Keys && forall c <- inputs.Keys :: c !in w.chunks
    ensures DataLinked(Persist(w, job, stt, inputs, vectors))
  {
    hide Persist, Alive;
    var r := Persist(w, job, stt, inputs, vectors);
    forall p <- r.entries.Keys ensures p.1 in r.chunks && r.chunks[p.1].video == r.entries[p].video {
      PersistedEntry(w, job, stt, inputs, vectors, p);
    }
    forall k <- r.items.Keys ensures Alive(r, k.source) { SameAlive(w, r, k.source); }
  }

  lemma SameAlive(w: World, r: World, index: string)
    requires r.catalog == w.catalog
    ensures Alive(r, index) == Alive(w, index)
  {
  }

  lemma PersistedEntry(
    w: World, job: nat, stt: string, inputs: map<nat, Option<string>>, vectors: map<nat, Vector>, p: (string, nat))
    requires inputs.Keys == vectors.Keys && p in Persist(w, job, stt, inputs, vectors).entries
    requires p in w.entries ==> p.1 in w.chunks && w.chunks[p.1].video == w.entries[p].video && p.1 !in inputs
    ensures var r := Persist(w, job, stt, inputs, vectors);
      p.1 in r.chunks && r.chunks[p.1].video == r.entries[p].video
  {
    hide AddEntries, WithoutChunks, ReplaceChunks, SameVersionChunks;
    if inputs.Keys != {} && job in w.jobs && w.jobs[job].video in w.videos
      && w.videos[w.jobs[job].video].status != Deleting
    {
      var j := w.jobs[job];
      AddedEntry(w.entries, w.chunks, SameVersionChunks(w, j.video, stt, j.model), j, stt, inputs, vectors, p);
    }
  }

  lemma AddedEntry(
    entries: map<(string, nat), Entry>, chunks: map<nat, Chunk>, gone: set<nat>, j: IngestJob, stt: string,
    inputs: map<nat, Option<string>>, vectors: map<nat, Vector>, p: (string, nat))
    requires inputs.Keys == vectors.Keys
    requires p in AddEntries(WithoutChunks(entries, gone), j.index, j.video, j.model, vectors)
    requires p in entries ==> p.1 in chunks && chunks[p.1].video == entries[p].video && p.1 !in inputs
    ensures p.1 in ReplaceChunks(chunks, gone, j.video, stt, j.model, inputs)
      && ReplaceChunks(chunks, gone, j.video, stt, j.model, inputs)[p.1].video
         == AddEntries(WithoutChunks(entries, gone), j.index, j.video, j.model, vectors)[p].video
  {
    hide AddEntries, WithoutChunks, ReplaceChunks;
  }

  lemma PersistKeepsApart(w: World, job: nat, stt: string, inputs: map<nat, Option<string>>, vectors: map<nat, Vector>)
    requires Inv(w)
    ensures CandidateApart(Persist(w, job, stt, inputs, vectors))
  {
    hide ReleaseIsTop, PreviousIsBelow, CandidateFields, DataLinked, AddEntries, WithoutChunks, ReplaceChunks;
    hide SameVersionChunks;
  }

  lemma PurgeKeeps(w: World, v: nat)
    requires Inv(w)
    ensures Inv(PurgeVideo(w, v))
  {
    hide ReleaseIsTop, PreviousIsBelow, CandidateFields;
    DataKeeps(w, PurgeVideo(w, v));
  }

  lemma EnqueueKeeps(w: World, v: nat, source: string)
    requires Inv(w)
    ensures Inv(EnqueueItem(w, v, source))
  {
    hide ReleaseIsTop, PreviousIsBelow, CandidateFields, OldOnlyVideos;
    DataKeeps(w, EnqueueItem(w, v, source));
  }

  lemma ReindexKeeps(w: World, key: ItemKey, vectors: map<nat, Vector>, status: ItemStatus)
    requires Inv(w) && (key in w.items ==> vectors.Keys <= SourceChunks(w, key.video, key.source))
    ensures Inv(ReindexItem(w, key, vectors, status))
  {
    hide ReleaseIsTop, PreviousIsBelow, CandidateFields, AddEntries;
    DataKeeps(w, ReindexItem(w, key, vectors, status));
  }

  lemma CatalogKeepsAlive(w: World, dimension: nat)
    ensures forall i :: Alive(w, i) ==> Alive(CatalogRelease(w, dimension), i)
  {
  }

  lemma CatalogKeeps(w: World, dimension: nat)
    requires Inv(w)
    ensures Inv(CatalogRelease(w, dimension))
  {
    hide ReleaseIsTop, PreviousIsBelow, CandidateFields, CatalogRelease, Alive;
    CatalogKeepsAlive(w, dimension);
    DataKeeps(w, CatalogRelease(w, dimension));
  }

  lemma ReembedKeeps(w: World, q: Reembedding, vectors: map<nat, Vector>)
    requires Inv(w) && q in w.requests && vectors.Keys <= ChunksOf(w, q.video)
    ensures Inv(Reembed(w, q, vectors))
  {
    hide ReleaseIsTop, PreviousIsBelow, CandidateFields, AddEntries;
    DataKeeps(w, Reembed(w, q, vectors));
  }

  lemma RecoveryKeeps(w: World)
    requires Inv(w)
    ensures Inv(ScanAndRecover(w))
  {
    hide ReleaseIsTop, PreviousIsBelow, DispatchSet, ProjectRestored, ExcludedProjects;
    DataKeeps(w, ScanAndRecover(w));
  }

  lemma LocalKeeps(w: World, step: Step)
    requires Inv(w) && (step.LoadTargetStep? || step.UploadStep? || step.FailStep? || step.DeleteStep? || step.RunStep?)
    ensures Inv(Apply(w, step))
  {
    hide ReleaseIsTop, PreviousIsBelow, CandidateFields, CandidateApart, DataLinked;
    LocalKeepsData(w, step);
    DataKeeps(w, Apply(w, step));
  }

  lemma LocalKeepsData(w: World, step: Step)
    requires CandidateApart(w) && DataLinked(w)
    requires step.LoadTargetStep? || step.UploadStep? || step.FailStep? || step.DeleteStep? || step.RunStep?
    ensures CandidateApart(Apply(w, step)) && DataLinked(Apply(w, step))
  {
    hide SetVideoStatus, LoadTarget;
    if step.LoadTargetStep? { LoadTargetKeepsData(w, step.job, step.video); } else { SameTables(w, Apply(w, step)); }
  }

  lemma SameTables(w: World, r: World)
    requires r == w.(videos := r.videos, runs := r.runs)
    ensures CandidateApart(r) == CandidateApart(w) && DataLinked(r) == DataLinked(w)
  {
  }

  lemma LoadTargetKeepsData(w: World, job: nat, v: nat)
    requires CandidateApart(w) && DataLinked(w)
    ensures CandidateApart(LoadTarget(w, job, v)) && DataLinked(LoadTarget(w, job, v))
  {
  }

  /** Every allowed step keeps the invariant. */
  lemma StepKeepsInv(w: World, step: Step)
    requires Inv(w) && Allowed(w, step)
    ensures Inv(Apply(w, step))
  {
    hide ReleaseIsTop, PreviousIsBelow, CandidateFields, CandidateApart, DataLinked;
    hide Open, Cutover, HandleRollback, Persist, EnqueueItem, ReindexItem, CatalogRelease, Reembed, ScanAndRecover;
    hide PurgeVideo;
    match step
    case OpenStep(runId, now) => OpenKeeps(w, runId, now);
    case CutoverStep(runId, modelReady, id, now) => CutoverKeeps(w, runId, modelReady, id, now);
    case RollbackStep(q, modelReady, now) => RollbackKeeps(w, q, modelReady, now);
    case LoadTargetStep(job, v) => LocalKeeps(w, step);
    case PersistStep(job, stt, inputs, vectors) => PersistKeeps(w, job, stt, inputs, vectors);
    case EnqueueStep(v, source) => EnqueueKeeps(w, v, source);
    case ReindexStep(key, vectors, status) => ReindexKeeps(w, key, vectors, status);
    case CatalogStep(dimension) => CatalogKeeps(w, dimension);
    case ReembedStep(q, vectors) => ReembedKeeps(w, q, vectors);
    case RecoveryStep => RecoveryKeeps(w);
    case UploadStep(v, project) => LocalKeeps(w, step);
    case FailStep(v) => LocalKeeps(w, step);
    case DeleteStep(v) => LocalKeeps(w, step);
    case PurgeStep(v) => PurgeKeeps(w, v);
    case RunStep(runId, run) => LocalKeeps(w, step);
  }

  // ---- runs ----

  ghost function Run(w: World, steps: seq<Step>): World
    decreases |steps|
  {
    if steps == [] then w else Run(Apply(w, steps[0]), steps[1..])
  }

  ghost predicate AllowedRun(w: World, steps: seq<Step>)
    decreases |steps|
  {
    steps == [] || (Allowed(w, steps[0]) && AllowedRun(Apply(w, steps[0]), steps[1..]))
  }

  lemma {:induction false} RunConcat(w: World, a: seq<Step>, b: seq<Step>)
    ensures Run(w, a + b) == Run(Run(w, a), b)
    ensures AllowedRun(w, a + b) <==> AllowedRun(w, a) && AllowedRun(Run(w, a), b)
    decreases |a|
  {
    hide Apply, Allowed;
    if a == [] {
      assert a + b == b;
    } else {
      assert (a + b)[0] == a[0] && (a + b)[1..] == a[1..] + b;
      RunConcat(Apply(w, a[0]), a[1..], b);
    }
  }

  lemma RunNothing(w: World)
    ensures Run(w, []) == w && AllowedRun(w, [])
  {
  }

  lemma RunOne(w: World, step: Step)
    ensures Run(w, [step]) == Apply(w, step) && (AllowedRun(w, [step]) <==> Allowed(w, step))
  {
    assert Run(Apply(w, step), [step][1..]) == Apply(w, step);
  }

  lemma RunExtend(w: World, steps: seq<Step>, step: Step)
    ensures Run(w, steps + [step]) == Apply(Run(w, steps), step)
    ensures AllowedRun(w, steps + [step]) <==> AllowedRun(w, steps) && Allowed(Run(w, steps), step)
  {
    hide Apply, Allowed;
    RunConcat(w, steps, [step]);
    RunOne(Run(w, steps), step);
  }

  /** In every run the release row stays the top of the snapshot stack, a rollback under way always
      has a release to restore, and an open candidate's index stays empty until cutover. */
  lemma RunKeepsInv(w: World, steps: seq<Step>)
    requires Inv(w) && AllowedRun(w, steps)
    ensures Inv(Run(w, steps))
    ensures var r := Run(w, steps);
      r.release.value.status == RollbackPreparing ==> RollbackTarget(r).Some?
    decreases |steps|
  {
    if steps != [] {
      StepKeepsInv(w, steps[0]);
      RunKeepsInv(Apply(w, steps[0]), steps[1..]);
    } else {
      TargetBelowTop(w);
    }
  }

  ghost predicate CutsOver(w: World, step: Step) {
    step.CutoverStep? && CutoverOutcomeOf(w, step.runId, step.modelReady) == CutOver
  }

  // ---- switching there and back ----

  /** What a cutover that goes through does to serving. */
  lemma CutoverSwitches(w: World, runId: nat, modelReady: bool, id: nat, now: int)
    requires Inv(w) && Allowed(w, CutoverStep(runId, modelReady, id, now))
    requires CutoverOutcomeOf(w, runId, modelReady) == CutOver
    ensures var r := Cutover(w, runId, modelReady, id, now);
      && r.release.Some? && r.release.value.status == Stable
      && Some(r.release.value.activeModel) == w.release.value.candidateModel
      && Some(r.release.value.activeIndex) == w.release.value.candidateIndex
      && |Stack(r.snapshots)| == |Stack(w.snapshots)| + 1
        && Stack(r.snapshots)[..|Stack(w.snapshots)|] == Stack(w.snapshots)
      && RollbackTarget(r) == Some((w.release.value.activeModel, w.release.value.activeIndex))
  {
    hide OldOnlyLeft, Stack, IsStack, RecordCutover, Top, PreviousIsBelow, CandidateApart, DataLinked, RollbackTarget;
    var r, t := w.release.value, CutoverTime(w, runId, now);
    CutoverOnStack(w.snapshots, id, r.candidateModel.value, r.candidateIndex.value, t);
    TargetBelowTop(Cutover(w, runId, modelReady, id, now));
  }

  /** The index can serve: it is in the catalog, not deleted, and holds some chunk's vector. */
  ghost predicate CanServe(w: World, index: string) {
    index in w.catalog && !w.catalog[index].deleted && exists c: nat :: (index, c) in w.entries
  }

  lemma RestorableIff(w: World, index: string)
    ensures IndexRestorable(w, index) <==> CanServe(w, index)
  {
    if IndexRestorable(w, index) {
      var p: (string, nat) :| p in w.entries && p.0 == index;
      assert p == (index, p.1);
    }
  }

  /** The last switch was at the instant the request names, or at the instant with its clock digits in UTC. */
  predicate NamesSwitch(r: Release, q: RollbackRequest) {
    r.switchedAt.Some? &&
      var (t, e) := (r.switchedAt.value, q.expectedSwitchedAt);
      t == e.wall || (e.offset.Some? && t == e.wall - e.offset.value)
  }

  lemma MatchesIff(r: Release, q: RollbackRequest)
    ensures MatchesSwitch(r, q) <==> r.activeModel == q.expectedModel && NamesSwitch(r, q)
  {
  }

  /** A rollback is under way, or the request asks to leave the last switch and the release below is another model. */
  predicate MayRestore(w: World, q: RollbackRequest, below: Snapshot)
    requires w.release.Some?
  {
    var p := w.release.value;
    && q.version == "v1"
    && (|| p.status == RollbackPreparing
        || (p.status == Stable && p.activeModel != below.model && p.activeModel == q.expectedModel
            && NamesSwitch(p, q)))
  }

  /** Exactly when a request completes a rollback. */
  lemma RollbackRestoresIff(w: World, q: RollbackRequest, modelReady: bool, now: int)
    requires Inv(w)
    ensures var s := Stack(w.snapshots);
      HandleRollback(w, q, modelReady, now).1 == Restored
      <==> |s| >= 2 && MayRestore(w, q, s[|s| - 2]) && modelReady && CanServe(w, s[|s| - 2].index)
  {
    hide Stack, RollbackTarget, IndexRestorable, ExcludeProjects, MatchesSwitch, ContinueRestore, MarkPreparing;
    hide ReleaseIsTop, PreviousIsBelow, CandidateFields, CandidateApart, DataLinked, IsStack, CanServe, NamesSwitch;
    TargetIsBelow(w);
    MatchesIff(w.release.value, q);
    if RollbackTarget(w).Some? { RestorableIff(w, RollbackTarget(w).value.1); }
    match AdmissionOf(w, q)
    case Rejected(_) =>
    case Continue => RestoreSwitches(w, modelReady, now);
    case Start =>
      var prepared := MarkPreparing(ExcludeProjects(w, w.release.value.activeModel));
      SameTarget(w, prepared);
      PreparedStatus(w);
      RestoreSwitches(prepared, modelReady, now);
  }

  /** The tables when the restore begins. */
  function Begun(w: World, q: RollbackRequest): World
    requires w.release.Some?
  {
    if AdmissionOf(w, q).Start? then MarkPreparing(ExcludeProjects(w, w.release.value.activeModel)) else w
  }

  lemma BegunServes(w: World, q: RollbackRequest, modelReady: bool, now: int)
    requires w.release.Some?
    ensures var x := Begun(w, q);
      && x.release.Some? && x.snapshots == w.snapshots && RollbackTarget(x) == RollbackTarget(w)
      && x.release.value.activeModel == w.release.value.activeModel
      && x.release.value.activeIndex == w.release.value.activeIndex
    ensures if AdmissionOf(w, q).Rejected? then HandleRollback(w, q, modelReady, now) == (w, AdmissionOf(w, q).outcome)
      else
        && RollbackTarget(w).Some?
        && HandleRollback(w, q, modelReady, now) == ContinueRestore(Begun(w, q), modelReady, now)
    ensures AdmissionOf(w, q).Rejected? ==> AdmissionOf(w, q).outcome != Restored
  {
    hide RollbackTarget, ContinueRestore, MatchesSwitch, ExcludeProjects;
    SameTarget(w, MarkPreparing(ExcludeProjects(w, w.release.value.activeModel)));
  }

  /** What serves after a request: the release below the top when it completed a rollback, else what served before. */
  lemma RollbackRestores(w: World, q: RollbackRequest, modelReady: bool, now: int)
    requires Inv(w)
    ensures var ((r, outcome), s) := (HandleRollback(w, q, modelReady, now), Stack(w.snapshots));
      && r.release.Some?
      && (outcome == Restored ==>
           && r.release.value.status == Stable && |s| >= 2 && Stack(r.snapshots) == s[..|s| - 1]
           && r.release.value.activeModel == s[|s| - 2].model && r.release.value.activeIndex == s[|s| - 2].index)
      && (outcome != Restored ==>
           && r.snapshots == w.snapshots
           && r.release.value.activeModel == w.release.value.activeModel
           && r.release.value.activeIndex == w.release.value.activeIndex)
  {
    hide Stack, RollbackTarget, IndexRestorable, AdmissionOf, HandleRollback, Begun, ContinueRestore;
    hide ReleaseIsTop, PreviousIsBelow, CandidateFields, CandidateApart, DataLinked, IsStack;
    TargetIsBelow(w);
    BegunServes(w, q, modelReady, now);
    if !AdmissionOf(w, q).Rejected? { RestoreSwitches(Begun(w, q), modelReady, now); }
  }

  /** Restoring needs a ready model and an index that can serve, and pops the stack. */
  lemma RestoreSwitches(w: World, modelReady: bool, now: int)
    requires w.release.Some? && IsStack(w.snapshots) && RollbackTarget(w).Some?
    ensures var (r, outcome) := ContinueRestore(w, modelReady, now);
      var (s, target) := (Stack(w.snapshots), RollbackTarget(w).value);
      && r.release.Some? && |s| >= 2
      && (outcome == Restored <==> modelReady && IndexRestorable(w, target.1))
      && (outcome == Restored ==>
           && r.release.value.status == Stable && Stack(r.snapshots) == s[..|s| - 1]
           && r.release.value.activeModel == target.0 && r.release.value.activeIndex == target.1)
      && (outcome != Restored ==> r == w)
  {
    hide Stack, IsStack, RecordRollback, RollbackTarget, IndexRestorable;
    TargetBelowTop(w);
    RollbackOnStack(w.snapshots);
  }

  lemma SameTarget(w: World, r: World)
    requires r == w.(release := r.release, projects := r.projects)
    ensures RollbackTarget(r) == RollbackTarget(w) && forall i :: IndexRestorable(r, i) == IndexRestorable(w, i)
  {
  }

  lemma OtherSnapshots(w: World, step: Step)
    requires !step.RollbackStep? && !step.CutoverStep?
    ensures Apply(w, step).snapshots == w.snapshots
  {
    hide Open, Persist, LoadTarget, EnqueueItem, ReindexItem, CatalogRelease, Reembed, ScanAndRecover, SetVideoStatus;
    hide PurgeVideo;
  }

  lemma {:induction false} SnapshotsStay(w: World, steps: seq<Step>)
    requires forall s <- steps :: !s.CutoverStep? && !s.RollbackStep?
    ensures Run(w, steps).snapshots == w.snapshots
    decreases |steps|
  {
    hide Apply;
    if steps != [] {
      OtherSnapshots(w, steps[0]);
      assert steps[0] in steps && forall s <- steps[1..] :: s in steps;
      SnapshotsStay(Apply(w, steps[0]), steps[1..]);
    }
  }

  /** A rollback undoes the last cutover: whatever else happened since, serving is back on the pair that was
      active before it, and the snapshot stack is as it was. */
  lemma RollbackUndoesCutover(
    w: World, cutover: Step, steps: seq<Step>, q: RollbackRequest, modelReady: bool, now: int)
    requires Inv(w) && cutover.CutoverStep? && Allowed(w, cutover)
    requires CutoverOutcomeOf(w, cutover.runId, cutover.modelReady) == CutOver
    requires AllowedRun(Apply(w, cutover), steps) && forall s <- steps :: !s.CutoverStep? && !s.RollbackStep?
    ensures var (r, outcome) := HandleRollback(Run(Apply(w, cutover), steps), q, modelReady, now);
      outcome == Restored ==>
        && r.release.Some? && Stack(r.snapshots) == Stack(w.snapshots)
        && r.release.value.activeModel == w.release.value.activeModel
        && r.release.value.activeIndex == w.release.value.activeIndex
  {
    hide Inv, Allowed, AllowedRun, HandleRollback, Cutover, CutoverOutcomeOf, Stack, IndexRestorable, MatchesSwitch;
    hide RollbackTarget;
    var x := Apply(w, cutover);
    var y := Run(x, steps);
    StepKeepsInv(w, cutover);
    CutoverSwitches(w, cutover.runId, cutover.modelReady, cutover.snapshotId, cutover.now);
    RunKeepsInv(x, steps);
    SnapshotsStay(x, steps);
    RollbackRestores(y, q, modelReady, now);
    TargetIsBelow(x);
  }

  lemma TargetIsBelow(w: World)
    requires Inv(w)
    ensures var s := Stack(w.snapshots);
      && IsStack(w.snapshots) && (w.release.value.status == RollbackPreparing ==> |s| >= 2)
      && RollbackTarget(w) == if |s| >= 2 then Some((s[|s| - 2].model, s[|s| - 2].index)) else None
  {
    TargetBelowTop(w);
  }
}
